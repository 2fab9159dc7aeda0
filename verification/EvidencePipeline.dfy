/** How the producers of evidence and the certificate compose: fault matrix, Paper soak and bundle.
    scripts/build_fault_matrix.py, scripts/paper_soak_observer.py, scripts/release_certification.py. */
module EvidencePipeline {
  import opened Wrappers
  import opened ReleaseChecks
  import opened ReleaseBundle
  import FM = FaultMatrix
  import PS = PaperSoak

  lemma FileIdentity(service: Option<FM.Service>, files: seq<FM.File>, i: nat)
    requires i < |files| && FM.OneIdentity(FM.Sources(service, files))
    ensures FM.Sources(service, files) != [] && FM.SourceOf(files[i]) == FM.Sources(service, files)[0]
  {
    var o := if service.Some? then 1 else 0;
    assert FM.Sources(service, files)[o + i] == FM.SourceOf(files[i]);
  }

  lemma TableIdentities(required: seq<string>, service: Option<FM.Service>, files: seq<FM.File>, m: FM.Matrix,
                        n: string)
    requires FM.MatrixOf(required, service, files, m) && m.passed && n in m.scenarios
    ensures m.scenarios[n].identity == m.identity
  {
    if n in FM.ServiceScenarios(service) {
      assert m.scenarios[n].identity == FM.Sources(service, files)[0];
    } else {
      var g :| g in files && g.name == n;
      var i :| 0 <= i < |files| && files[i] == g;
      FileIdentity(service, files, i);
      assert m.scenarios[files[i].name] == FM.Normalize(files[i]);
    }
  }

  /** For every policy list and every set of sources, the certificate's fault section accepts a
      matrix built under the same policy exactly when the matrix passed and is for this release. */
  lemma MatrixComposes(required: seq<string>, service: Option<FM.Service>, files: seq<FM.File>, m: FM.Matrix,
                       gitSha: string, releaseId: string)
    requires FM.MatrixOf(required, service, files, m)
    ensures FaultOk(required, m, gitSha, releaseId) <==>
            m.passed && m.identity.gitSha == gitSha && m.identity.releaseId == releaseId
  {
    if m.passed {
      assert FM.Identified(FM.Sources(service, files)[0]);
      forall n | n in required && m.identity.gitSha == gitSha && m.identity.releaseId == releaseId
        ensures ScenarioOk(m, gitSha, releaseId, n)
      {
        assert FM.Shown(service, files, n);
        FM.ShownInTable(service, files, m.scenarios, n);
        TableIdentities(required, service, files, m, n);
      }
    }
  }

  ghost function SoakOf(e: PS.Evidence): Soak {
    Soak(e.passed, e.evidenceMode, Some(e.startedAt), Some(e.completedAt), e.gitSha, e.releaseId,
         e.dataReleaseId, e.ledgerPassed, e.recoveryPassed)
  }

  /** A soak the campaign judged ready, once finalized, is long enough for the certificate as
      long as the policy asks for no more days than the campaign was configured with. */
  lemma ReadySoakLongEnough(p: Policy, digest: PS.Digest, state: PS.SoakState, fault: PS.FaultPayload,
                            paperDays: int, e: PS.Evidence)
    requires PS.Ready(paperDays, Some(state)) && MinimumDays(p) <= paperDays
    requires PS.Finalized(digest, state, fault, paperDays, e)
    ensures SoakElapsed(SoakOf(e)) >= MinimumDays(p) as real
  {
    PS.ReadyMeetsBounds(state, paperDays, e.observedDates);
  }

  // ----- The whole pipeline -----

  /** Matrix builder into certificate: when the fault evidence is a matrix built under the same
      policy, the bundle reports a fault-related reason exactly when that matrix did not pass or
      belongs to another release. */
  lemma BuiltMatrixReasons(p: Policy, profile: string, runtime: string, currentGit: string,
                           existing: set<string>, f: Files,
                           service: Option<FM.Service>, scenarioFiles: seq<FM.File>)
    requires profile in p.profiles && runtime in p.windowsRequired
    requires FaultMatrixFile in RequiredKinds(p, profile, runtime) && f.fault.Json?
    requires FM.MatrixOf(p.requiredFaults, service, scenarioFiles, f.fault.payload)
    ensures var blocked := Failing(AllChecks(p, profile, runtime, currentGit, existing, f));
            var release := Seen(p, profile, runtime, f).convergence;
            (exists c :: c in blocked && AboutFaults(c)) <==>
            !(&& FM.Passing(p.requiredFaults, service, scenarioFiles)
              && FM.Sources(service, scenarioFiles)[0] ==
                 FM.Identity(release.gitSha, release.gitSha, release.releaseId))
  {
    var m := f.fault.payload;
    var v := Seen(p, profile, runtime, f);
    assert v.fault == m;
    ReasonsExact(p, profile, runtime, currentGit, existing, f);
    MatrixComposes(p.requiredFaults, service, scenarioFiles, m, v.convergence.gitSha, v.convergence.releaseId);
    assert m.passed ==> FM.Identified(m.identity);
  }

  /** Soak observer into certificate: evidence finalized from a state the campaign judged ready
      never yields `paper_soak_too_short`. */
  lemma ReadySoakNeverTooShort(p: Policy, profile: string, runtime: string, currentGit: string,
                               existing: set<string>, f: Files,
                               digest: PS.Digest, state: PS.SoakState, fault: PS.FaultPayload,
                               paperDays: int, e: PS.Evidence)
    requires profile in p.profiles && runtime in p.windowsRequired
    requires PaperSoakFile in RequiredKinds(p, profile, runtime) && f.soak == Json(SoakOf(e))
    requires PS.Ready(paperDays, Some(state)) && MinimumDays(p) <= paperDays
    requires PS.Finalized(digest, state, fault, paperDays, e)
    ensures PaperSoakTooShort !in Failing(AllChecks(p, profile, runtime, currentGit, existing, f))
  {
    assert Seen(p, profile, runtime, f).soak == SoakOf(e);
    ReasonsExact(p, profile, runtime, currentGit, existing, f);
    ReadySoakLongEnough(p, digest, state, fault, paperDays, e);
  }

  /** What `_fault_recovery` reads from a matrix file. */
  ghost function RecoveryOf(m: FM.Matrix): PS.FaultPayload {
    PS.FaultPayload(m.passed, map n | n in m.scenarios :: m.scenarios[n].passed)
  }

  lemma RequiredPassed(required: seq<string>, service: Option<FM.Service>, files: seq<FM.File>, m: FM.Matrix,
                       n: string)
    requires FM.MatrixOf(required, service, files, m) && m.passed && n in required
    ensures n in m.scenarios && m.scenarios[n].passed
  {
    assert FM.Shown(service, files, n);
    FM.ShownInTable(service, files, m.scenarios, n);
  }

  lemma RecoveredIff(m: FM.Matrix)
    requires m.passed ==> forall n :: n in PS.RECOVERY_SCENARIOS ==> n in m.scenarios && m.scenarios[n].passed
    ensures PS.Recovered(RecoveryOf(m)) <==> m.passed
  {
    var names := PS.RECOVERY_SCENARIOS;
    assert names[0] in names && names[1] in names && names[2] in names;
  }

  /** Matrix builder into soak observer: under a policy that requires the three interruption
      scenarios, recovery is recorded as passed exactly when the built matrix passed. */
  lemma MatrixRecovers(required: seq<string>, service: Option<FM.Service>, files: seq<FM.File>, m: FM.Matrix)
    requires FM.MatrixOf(required, service, files, m)
    requires forall n :: n in PS.RECOVERY_SCENARIOS ==> n in required
    ensures PS.Recovered(RecoveryOf(m)) <==> FM.Passing(required, service, files)
  {
    forall n | m.passed && n in PS.RECOVERY_SCENARIOS ensures n in m.scenarios && m.scenarios[n].passed {
      RequiredPassed(required, service, files, m, n);
    }
    RecoveredIff(m);
  }

  /** The campaign's finalization, which waits for a passing matrix and a ready soak: an honestly
      recorded soak then passes exactly when the projections held at every sample. */
  lemma CampaignSoakPasses(required: seq<string>, service: Option<FM.Service>, files: seq<FM.File>, m: FM.Matrix,
                           digest: PS.Digest, state: PS.SoakState, paperDays: int, e: PS.Evidence)
    requires FM.MatrixOf(required, service, files, m) && m.passed
    requires forall n :: n in PS.RECOVERY_SCENARIOS ==> n in required
    requires PS.Ready(paperDays, Some(state)) && PS.Honest(digest, state)
    requires PS.Finalized(digest, state, RecoveryOf(m), paperDays, e)
    ensures e.passed <==> forall s :: s in state.samples ==> s.body.projectionPassed
    ensures e.recoveryPassed && (e.ledgerPassed <==> e.passed)
  {
    MatrixRecovers(required, service, files, m);
    PS.ReadyFinalizes(digest, state, RecoveryOf(m), paperDays, e);
  }

  lemma SoakReasons(p: Policy, profile: string, runtime: string, currentGit: string,
                    existing: set<string>, f: Files, s: Soak)
    requires profile in p.profiles && runtime in p.windowsRequired && profile == "paper"
    requires PaperSoakFile in RequiredKinds(p, profile, runtime) && f.soak == Json(s)
    ensures var blocked := Failing(AllChecks(p, profile, runtime, currentGit, existing, f));
            && (PaperSoakTooShort in blocked <==> SoakElapsed(s) < MinimumDays(p) as real)
            && (PaperSoakRecoveryFailed in blocked <==> !s.recoveryPassed)
            && (PaperSoakModeInvalid in blocked <==> !s.passed || s.mode != "production_shape_observation")
            && (PaperSoakLedgerProjectionFailed in blocked <==> !s.ledgerPassed)
  {
    assert Seen(p, profile, runtime, f).soak == s;
    ReasonsExact(p, profile, runtime, currentGit, existing, f);
  }

  /** Observer, matrix builder and campaign into certificate: the evidence of such a soak puts no
      length and no recovery reason into the bundle, and a mode or ledger reason exactly when some
      projection did not hold. */
  lemma CampaignSoakReasons(p: Policy, profile: string, runtime: string, currentGit: string, existing: set<string>,
                            f: Files, service: Option<FM.Service>, files: seq<FM.File>, m: FM.Matrix,
                            digest: PS.Digest, state: PS.SoakState, paperDays: int, e: PS.Evidence)
    requires profile in p.profiles && runtime in p.windowsRequired && profile == "paper"
    requires PaperSoakFile in RequiredKinds(p, profile, runtime) && f.soak == Json(SoakOf(e))
    requires FM.MatrixOf(p.requiredFaults, service, files, m) && m.passed
    requires forall n :: n in PS.RECOVERY_SCENARIOS ==> n in p.requiredFaults
    requires PS.Ready(paperDays, Some(state)) && PS.Honest(digest, state) && MinimumDays(p) <= paperDays
    requires PS.Finalized(digest, state, RecoveryOf(m), paperDays, e)
    ensures var blocked := Failing(AllChecks(p, profile, runtime, currentGit, existing, f));
            var held := forall s :: s in state.samples ==> s.body.projectionPassed;
            && PaperSoakTooShort !in blocked && PaperSoakRecoveryFailed !in blocked
            && (PaperSoakModeInvalid in blocked <==> !held)
            && (PaperSoakLedgerProjectionFailed in blocked <==> !held)
  {
    CampaignSoakPasses(p.requiredFaults, service, files, m, digest, state, paperDays, e);
    ReadySoakLongEnough(p, digest, state, RecoveryOf(m), paperDays, e);
    SoakReasons(p, profile, runtime, currentGit, existing, f, SoakOf(e));
  }
}

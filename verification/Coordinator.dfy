/** The coordinator process itself: `_run_once`, `_launch_webhook`, `_tick`, `_recover_interrupted`
    and `run_loop` as code over the state file and the in-memory state. Every method records the
    micro-steps it takes, and is proved to take only steps of the campaign's transition system, so
    what holds for every run holds for every execution of this code, cut short anywhere. */
module Coordinator {
  import opened Wrappers
  import opened Campaign

  /** What the loop meets at its next turn: a stop file, or a tick with these observations. */
  datatype Turn = StopFile | TickWith(env: Env)

  /** What a tick makes of the webhook: evidence decides; without evidence a failed or interrupted
      monitor stays as it is, a live one is left alone, and otherwise a new one is running. */
  function WebhookStatus(v: Status, env: Env): Status {
    match env.webhookFile
    case File(passed, thirdParty) =>
      if passed && thirdParty then Passed else if env.webhookAlive then v else Failed
    case NoFile =>
      if v == Failed || v == Indeterminate || env.webhookAlive then v else Running
  }

  /** Only step `n` changed: to PASSED if its command ended with exit code 0, to FAILED if it ended
      with another code or raised. */
  ghost predicate CarriedOut(s: State, s': State, env: Env, n: StepName) {
    s' == s.(steps := s.steps[n := if n in env.outcome && env.outcome[n] == Exit(0) then Passed else Failed])
  }

  function Read(s: State, n: StepName): Status {
    if n in s.steps then s.steps[n] else Pending
  }

  /** One attempt at a step: carried out if wanted and not begun, else left alone. */
  ghost predicate Attempt(s: State, s': State, env: Env, n: StepName, wanted: bool) {
    Read(s', n) ==
    if wanted && (Read(s, n) == Pending || (Read(s, n) == WaitingEvidence && n != Backup))
    then if n in env.outcome && env.outcome[n] == Exit(0) then Passed else Failed
    else Read(s, n)
  }

  /** No step but `a`, `b` and `c` changed, nor did the overall status. */
  ghost predicate Frame(s: State, s': State, a: StepName, b: StepName, c: StepName) {
    (forall n :: n != a && n != b && n != c ==> Read(s', n) == Read(s, n)) && s'.status == s.status
  }

  ghost predicate OneAttempt(s: State, s': State, env: Env, n: StepName, wanted: bool) {
    Attempt(s, s', env, n, wanted) && Frame(s, s', n, n, n) && s'.blockers == s.blockers
  }

  /** Lines 488-493. */
  ghost predicate WebhookEffect(s: State, s': State, env: Env) {
    && Read(s', ExternalWebhook) ==
         (if env.webhookConfigured then WebhookStatus(Read(s, ExternalWebhook), env) else Read(s, ExternalWebhook))
    && Frame(s, s', ExternalWebhook, ExternalWebhook, ExternalWebhook)
    && s'.blockers == s.blockers + if env.webhookConfigured then [] else ["external_webhook_not_configured"]
  }

  /** Lines 469-506. */
  ghost predicate PrepareEffect(s: State, s': State, env: Env) {
    && Attempt(s, s', env, PaperSoakStart, !env.paperStateExists) && Attempt(s, s', env, Backup, true)
    && Read(s', ExternalWebhook) ==
         (if env.webhookConfigured then WebhookStatus(Read(s, ExternalWebhook), env) else Read(s, ExternalWebhook))
    && Frame(s, s', PaperSoakStart, ExternalWebhook, Backup)
    && s'.blockers == s.blockers + if env.webhookConfigured then [] else ["external_webhook_not_configured"]
  }

  /** Lines 508-559. */
  ghost predicate ExerciseEffect(s: State, s': State, env: Env) {
    && Attempt(s, s', env, RestoreDrill, Read(s', Backup) == Passed)
    && Attempt(s, s', env, ServiceFaults, Read(s', RestoreDrill) == Passed)
    && Frame(s, s', RestoreDrill, ServiceFaults, ServiceFaults) && s'.blockers == s.blockers
  }

  /** Lines 561-567. */
  ghost predicate MatrixEffect(s: State, s': State, env: Env) {
    && Read(s', FaultMatrix) == (if env.matrixPassed then Passed else WaitingEvidence)
    && Frame(s, s', FaultMatrix, FaultMatrix, FaultMatrix)
    && s'.blockers == s.blockers + if env.matrixPassed then [] else ["fault_scenarios_missing"]
  }

  /** Lines 561-581. */
  ghost predicate ConcludeEffect(s: State, s': State, env: Env) {
    && Read(s', FaultMatrix) == (if env.matrixPassed then Passed else WaitingEvidence)
    && Attempt(s, s', env, PaperSoakFinalize, env.matrixPassed && env.paperReady && !env.soakFileExists)
    && Frame(s, s', FaultMatrix, PaperSoakFinalize, PaperSoakFinalize)
    && s'.blockers == s.blockers + if env.matrixPassed then [] else ["fault_scenarios_missing"]
  }

  /** Lines 583-618. */
  ghost predicate BundleEffect(s: State, s': State, env: Env) {
    var complete := forall e: Evidence :: e in env.files;
    && Read(s', Certificate) ==
         (if !complete then Read(s, Certificate) else if env.bundleCertified then Passed else WaitingEvidence)
    && (forall n :: n != Certificate ==> Read(s', n) == Read(s, n))
    && s'.status == (if complete && env.bundleCertified then Certified else InProgress)
    && s'.blockers == if complete then env.bundleBlocked else s.blockers + ["certification_evidence_incomplete"]
  }

  /** Lines 619-624. */
  ghost predicate CloseEffect(s: State, s': State) {
    s' == if exists n :: n in s.steps && s.steps[n] in {Failed, Indeterminate} then s.(status := Blocked) else s
  }

  /** The stages of a tick from the soak on, one after the other. */
  ghost predicate Stages(s0: State, s1: State, s2: State, s3: State, s4: State, s5: State, env: Env) {
    && s0.blockers == [] && PrepareEffect(s0, s1, env) && ExerciseEffect(s1, s2, env)
    && ConcludeEffect(s2, s3, env) && BundleEffect(s3, s4, env) && CloseEffect(s4, s5)
  }

  /** What a stage has settled stays to the end of the tick. */
  lemma Settled(s1: State, s2: State, s3: State, s4: State, s5: State, env: Env)
    requires ExerciseEffect(s1, s2, env) && ConcludeEffect(s2, s3, env)
    requires BundleEffect(s3, s4, env) && CloseEffect(s4, s5)
    ensures Read(s5, PaperSoakStart) == Read(s1, PaperSoakStart)
    ensures Read(s5, Backup) == Read(s2, Backup) == Read(s1, Backup)
    ensures Read(s5, ExternalWebhook) == Read(s1, ExternalWebhook)
    ensures Read(s5, RestoreDrill) == Read(s2, RestoreDrill) && Read(s5, ServiceFaults) == Read(s2, ServiceFaults)
    ensures Read(s5, FaultMatrix) == Read(s3, FaultMatrix) && Read(s5, PaperSoakFinalize) == Read(s3, PaperSoakFinalize)
    ensures Read(s5, Certificate) == Read(s4, Certificate)
  {
    assert s5.steps == s4.steps;
  }

  /** What a stage is yet to settle is as the tick found it. */
  lemma Untouched(s0: State, s1: State, s2: State, s3: State, env: Env)
    requires PrepareEffect(s0, s1, env) && ExerciseEffect(s1, s2, env) && ConcludeEffect(s2, s3, env)
    ensures Read(s1, RestoreDrill) == Read(s0, RestoreDrill) && Read(s1, ServiceFaults) == Read(s0, ServiceFaults)
    ensures Read(s2, PaperSoakFinalize) == Read(s0, PaperSoakFinalize)
    ensures Read(s3, Certificate) == Read(s0, Certificate)
  {
  }

  lemma StagesOneShot(s0: State, s1: State, s2: State, s3: State, s4: State, s5: State, env: Env)
    requires Stages(s0, s1, s2, s3, s4, s5, env)
    ensures OneShotEffect(s0, s5, env)
  {
    Settled(s1, s2, s3, s4, s5, env);
    Untouched(s0, s1, s2, s3, env);
  }

  lemma StagesOther(s0: State, s1: State, s2: State, s3: State, s4: State, s5: State, env: Env)
    requires Stages(s0, s1, s2, s3, s4, s5, env)
    ensures OtherEffect(s0, s5, env)
  {
    Settled(s1, s2, s3, s4, s5, env);
    Untouched(s0, s1, s2, s3, env);
  }

  /** `_run_once` is one attempt. */
  lemma OnceIsAttempt(s: State, s': State, env: Env, n: StepName)
    requires n != Backup
    requires if n !in s.steps || s.steps[n] in {Pending, WaitingEvidence} then CarriedOut(s, s', env, n) else s' == s
    ensures OneAttempt(s, s', env, n, true)
  {
  }

  lemma StagesOverall(s3: State, s4: State, s5: State, env: Env)
    requires BundleEffect(s3, s4, env) && CloseEffect(s4, s5)
    requires s3.blockers == (if env.webhookConfigured then [] else ["external_webhook_not_configured"])
                            + if env.matrixPassed then [] else ["fault_scenarios_missing"]
    ensures OverallEffect(s5, env)
  {
    assert s5.steps == s4.steps;
  }

  lemma StagesBlockers(s0: State, s1: State, s2: State, s3: State, env: Env)
    requires s0.blockers == [] && PrepareEffect(s0, s1, env)
    requires ExerciseEffect(s1, s2, env) && ConcludeEffect(s2, s3, env)
    ensures s3.blockers == (if env.webhookConfigured then [] else ["external_webhook_not_configured"])
                           + if env.matrixPassed then [] else ["fault_scenarios_missing"]
  {
    assert s1.blockers == if env.webhookConfigured then [] else ["external_webhook_not_configured"];
  }

  /** The blockers that a tick clears first do not matter to its effect. */
  lemma ClearedEffect(c: Config, s: State, s': State, env: Env)
    requires SameRelease(c, env)
    requires var s0 := s.(blockers := []);
             OneShotEffect(s0, s', env) && OtherEffect(s0, s', env) && OverallEffect(s', env)
    ensures TickEffect(c, s, s', env)
  {
    assert forall n :: Read(s.(blockers := []), n) == Read(s, n);
  }

  /** A run that ends with a finished tick and CERTIFIED has earned it. */
  lemma CertifiedEnd(c: Config, run: seq<World>)
    requires IsRun(c, run) && TickEnds(run[|run| - 1])
    ensures run[|run| - 1].process.mem.status == Certified ==>
              CertificateEarned(c, run[|run| - 1].process.mem, run[|run| - 1].process.env) &&
              NoneBad(run[|run| - 1].process.mem)
  {
    if run[|run| - 1].process.mem.status == Certified {
      CertifiedTickEarned(c, run, |run| - 1);
    }
  }

  ghost predicate TickEnds(w: World) {
    w.process.Up? && w.process.pc == TickDone
  }

  /** What a tick makes of the five one-shot steps. */
  ghost predicate OneShotEffect(s: State, s': State, env: Env) {
    && Attempt(s, s', env, PaperSoakStart, !env.paperStateExists)
    && Attempt(s, s', env, Backup, true)
    && Attempt(s, s', env, RestoreDrill, Read(s', Backup) == Passed)
    && Attempt(s, s', env, ServiceFaults, Read(s', RestoreDrill) == Passed)
    && Attempt(s, s', env, PaperSoakFinalize, env.matrixPassed && env.paperReady && !env.soakFileExists)
  }

  /** What a tick makes of the other steps. */
  ghost predicate OtherEffect(s: State, s': State, env: Env) {
    && Read(s', ExternalWebhook) ==
         (if env.webhookConfigured then WebhookStatus(Read(s, ExternalWebhook), env) else Read(s, ExternalWebhook))
    && Read(s', FaultMatrix) == (if env.matrixPassed then Passed else WaitingEvidence)
    && Read(s', Certificate) ==
         (if !(forall e: Evidence :: e in env.files) then Read(s, Certificate)
          else if env.bundleCertified then Passed else WaitingEvidence)
  }

  /** The overall status and the blockers that a tick leaves. */
  ghost predicate OverallEffect(s': State, env: Env) {
    var complete := forall e: Evidence :: e in env.files;
    && s'.status ==
         (if exists n :: n in s'.steps && s'.steps[n] in {Failed, Indeterminate} then Blocked
          else if complete && env.bundleCertified then Certified else InProgress)
    && s'.blockers ==
         if complete then env.bundleBlocked
         else (if env.webhookConfigured then [] else ["external_webhook_not_configured"])
              + (if env.matrixPassed then [] else ["fault_scenarios_missing"]) + ["certification_evidence_incomplete"]
  }

  /** What a tick leaves that finds no service or another release. */
  ghost predicate Refused(s: State, s': State, env: Env) {
    s' == if env.health.Unavailable? then State(s.steps, WaitingPrerequisites, ["api_health_unavailable"])
          else State(s.steps, Blocked, ["release_identity_mismatch"])
  }

  /** The whole effect of a tick on the state. */
  ghost predicate TickEffect(c: Config, s: State, s': State, env: Env) {
    if !SameRelease(c, env) then Refused(s, s', env)
    else
      OneShotEffect(s, s', env) && OtherEffect(s, s', env) && OverallEffect(s', env)
  }

  class Process {
    const config: Config
    var disk: Option<State>
    var state: State
    ghost var started: seq<StepName>
    ghost var run: seq<World>

    /** The recorded run is a run of the system and ends in the present situation. */
    ghost predicate Tracks(pc: PC, env: Env)
      reads this
    {
      IsRun(config, run) && run[|run| - 1] == World(disk, Up(state, pc, env), started)
    }

    /** Append the present situation to the recorded run. */
    ghost method Record(pc: PC, env: Env)
      requires IsRun(config, run)
      requires Next(config, run[|run| - 1], World(disk, Up(state, pc, env), started))
      modifies this`run
      ensures Tracks(pc, env) && run == old(run) + [World(disk, Up(state, pc, env), started)]
    {
      ExtendRun(config, run, World(disk, Up(state, pc, env), started));
      run := run + [World(disk, Up(state, pc, env), started)];
    }

    /** Lines 639-642: load the file or start afresh, recover, write. */
    constructor (config: Config, disk: Option<State>, ghost earlier: seq<World>, ghost env: Env)
      requires IsRun(config, earlier)
      requires earlier[|earlier| - 1].process.Down? && earlier[|earlier| - 1].disk == disk
      ensures this.config == config && Tracks(Idle, env) && earlier <= run
      ensures var loaded := if disk.Some? then disk.value else State(map[], Initialized, []);
              && state.status == loaded.status && state.blockers == loaded.blockers
              && state.steps.Keys == loaded.steps.Keys
              && forall n :: n in loaded.steps ==>
                   state.steps[n] == (if loaded.steps[n] == Running && n != ExternalWebhook then Indeterminate
                                      else loaded.steps[n])
      ensures this.disk == Some(state)
    {
      this.config := config;
      this.disk := disk;
      started := earlier[|earlier| - 1].started;
      run := earlier;
      var loaded := if disk.Some? then disk.value else NewState;
      state := Recover(loaded);
      new;
      Record(Booted, env);
      this.disk := Some(state);
      Record(Idle, env);
    }

    /** `_set_step(state, n, "RUNNING")`. */
    method Mark(n: StepName, env: Env, ghost stage: Stage)
      requires Tracks(At(stage), env) && stage != WriteStage && MayRun(state, n)
      requires RunStage(state, env, stage) == Enter(state, env, n, true)
      modifies this`state, this`run
      ensures Tracks(Marked(n), env) && old(run) <= run && state == SetStep(old(state), n, Running)
    {
      state := SetStep(state, n, Running);
      Record(Marked(n), env);
    }

    /** `_write` of the RUNNING mark, then the action begins. */
    method SaveAndStart(n: StepName, env: Env)
      requires Tracks(Marked(n), env)
      modifies this`disk, this`started, this`run
      ensures Tracks(Acting(n), env) && old(run) <= run && started == old(started) + [n]
    {
      disk := Some(state);
      Record(Saved(n), env);
      started := started + [n];
      Record(Acting(n), env);
    }

    /** `_set_step` with the result of the action, then `_write`. */
    method SaveResult(n: StepName, v: Status, env: Env)
      requires Tracks(Acting(n), env) && v == Verdict(env, n)
      modifies this`disk, this`state, this`run
      ensures Tracks(At(StageAfter(n)), env) && old(run) <= run && state == SetStep(old(state), n, v)
      ensures disk == Some(state)
    {
      state := SetStep(state, n, v);
      Record(Judged(n), env);
      disk := Some(state);
      Record(At(StageAfter(n)), env);
    }

    /** The step is not run: on to the next stage. */
    ghost method Skip(n: StepName, env: Env, wanted: bool, stage: Stage)
      requires Tracks(At(stage), env) && stage != WriteStage
      requires RunStage(state, env, stage) == Enter(state, env, n, wanted) && !(wanted && MayRun(state, n))
      modifies this`run
      ensures Tracks(At(StageAfter(n)), env) && old(run) <= run
    {
      Record(At(StageAfter(n)), env);
    }

    /** `_run_once` for step `n`: true exactly when the step has passed, and no other step, the
        overall status and the blockers are touched. */
    method RunOnce(n: StepName, env: Env, ghost stage: Stage) returns (ok: bool)
      requires Tracks(At(stage), env) && stage != WriteStage && n != Backup
      requires RunStage(state, env, stage) == Enter(state, env, n, true)
      modifies this`disk, this`state, this`started, this`run
      ensures Tracks(At(StageAfter(n)), env) && old(run) <= run
      ensures ok <==> n in state.steps && state.steps[n] == Passed
      ensures if n !in old(state).steps || old(state).steps[n] in {Pending, WaitingEvidence}
              then CarriedOut(old(state), state, env, n) && started == old(started) + [n] && disk == Some(state)
              else state == old(state) && started == old(started) && disk == old(disk)
    {
      var current := StatusOf(state, n);
      if current == Passed {
        Skip(n, env, true, stage);
        return true;
      }
      if current in {Failed, Indeterminate, Running} {
        Skip(n, env, true, stage);
        return false;
      }
      Mark(n, env, stage);
      SaveAndStart(n, env);
      ok := Settle(n, env);
    }

    /** Lines 236-249: the command ended or raised. */
    method Settle(n: StepName, env: Env) returns (ok: bool)
      requires Tracks(Acting(n), env)
      modifies this`disk, this`state, this`run
      ensures Tracks(At(StageAfter(n)), env) && old(run) <= run && CarriedOut(old(state), state, env, n)
      ensures ok <==> n in env.outcome && env.outcome[n] == Exit(0)
      ensures disk == Some(state)
    {
      if n !in env.outcome || env.outcome[n] == Raised {
        SaveResult(n, Failed, env);
        return false;
      }
      var code := env.outcome[n].code;
      SaveResult(n, if code == 0 then Passed else Failed, env);
      return code == 0;
    }

    /** Run a step of a tick if it is wanted. */
    method TryStep(n: StepName, env: Env, wanted: bool, ghost stage: Stage)
      requires Tracks(At(stage), env) && stage != WriteStage && n != Backup
      requires RunStage(state, env, stage) == Enter(state, env, n, wanted)
      modifies this`disk, this`state, this`started, this`run
      ensures Tracks(At(StageAfter(n)), env) && old(run) <= run
      ensures OneAttempt(old(state), state, env, n, wanted)
    {
      if wanted {
        var _ := RunOnce(n, env, stage);
        OnceIsAttempt(old(state), state, env, n);
      } else {
        Skip(n, env, false, stage);
      }
    }

    /** Lines 495-506: the same protocol, but tested on PENDING alone. */
    method RunBackup(env: Env)
      requires Tracks(At(BackupStage), env)
      modifies this`disk, this`state, this`started, this`run
      ensures Tracks(At(RestoreStage), env) && old(run) <= run
      ensures if Backup !in old(state).steps || old(state).steps[Backup] == Pending
              then CarriedOut(old(state), state, env, Backup) && started == old(started) + [Backup] &&
                   disk == Some(state)
              else state == old(state) && started == old(started) && disk == old(disk)
      ensures OneAttempt(old(state), state, env, Backup, true)
    {
      if StatusOf(state, Backup) == Pending {
        Mark(Backup, env, BackupStage);
        SaveAndStart(Backup, env);
        if Backup in env.outcome && env.outcome[Backup] == Exit(0) {
          SaveResult(Backup, Passed, env);
        } else {
          SaveResult(Backup, Failed, env);
        }
      } else {
        Skip(Backup, env, true, BackupStage);
      }
    }

    /** `_launch_webhook`, lines 286-338. */
    method LaunchWebhook(env: Env)
      requires Tracks(At(WebhookStage), env) && env.webhookConfigured
      modifies this`disk, this`state, this`run
      ensures Tracks(At(BackupStage), env) && old(run) <= run
      ensures Read(state, ExternalWebhook) == WebhookStatus(Read(old(state), ExternalWebhook), env)
      ensures forall n :: n != ExternalWebhook ==> Read(state, n) == Read(old(state), n)
      ensures state.status == old(state).status && state.blockers == old(state).blockers
      ensures env.webhookFile.NoFile? && Read(state, ExternalWebhook) == Running ==>
                env.webhookAlive || disk == Some(state)
    {
      if env.webhookFile.File? {
        if env.webhookFile.passed && env.webhookFile.thirdParty {
          state := SetStep(state, ExternalWebhook, Passed);
        } else if !env.webhookAlive {
          state := SetStep(state, ExternalWebhook, Failed);
        }
        Record(At(BackupStage), env);
        return;
      }
      if StatusOf(state, ExternalWebhook) in {Failed, Indeterminate} {
        Record(At(BackupStage), env);
        return;
      }
      if env.webhookAlive {
        Record(At(BackupStage), env);
        return;
      }
      state := SetStep(state, ExternalWebhook, Running);
      Record(WebhookLaunched, env);
      disk := Some(state);
      Record(At(BackupStage), env);
    }

    /** Lines 447-467; true when the tick goes on. */
    method CheckRelease(env: Env, ghost last: Env) returns (proceed: bool)
      requires Tracks(Idle, last)
      modifies this`disk, this`state, this`run
      ensures old(run) <= run
      ensures proceed <==> SameRelease(config, env)
      ensures Tracks(if proceed then At(SoakStage) else TickDone, env)
      ensures if proceed then state == old(state).(blockers := [])
              else Refused(old(state), state, env) && disk == Some(state)
    {
      if env.health.Unavailable? {
        state := state.(status := WaitingPrerequisites, blockers := ["api_health_unavailable"]);
        Record(At(WriteStage), env);
        disk := Some(state);
        Record(TickDone, env);
        return false;
      }
      if env.currentGit != config.gitSha || env.health.gitSha != Some(config.gitSha)
         || env.health.releaseId != Some(config.releaseId) {
        state := state.(status := Blocked, blockers := ["release_identity_mismatch"]);
        Record(At(WriteStage), env);
        disk := Some(state);
        Record(TickDone, env);
        return false;
      }
      state := state.(blockers := []);
      Record(At(SoakStage), env);
      return true;
    }

    /** Lines 561-567. */
    method RecordMatrix(env: Env)
      requires Tracks(At(MatrixStage), env)
      modifies this`state, this`run
      ensures Tracks(At(FinalizeStage), env) && old(run) <= run
      ensures MatrixEffect(old(state), state, env)
    {
      if env.matrixPassed {
        state := SetStep(state, FaultMatrix, Passed);
      } else {
        state := SetStep(state, FaultMatrix, WaitingEvidence);
        state := state.(blockers := state.blockers + ["fault_scenarios_missing"]);
      }
      Record(At(FinalizeStage), env);
    }

    /** Lines 583-618. */
    method BuildBundle(env: Env)
      requires Tracks(At(BundleStage), env)
      modifies this`state, this`run
      ensures Tracks(At(BlockStage), env) && old(run) <= run
      ensures BundleEffect(old(state), state, env)
    {
      AllSeven(env.files);
      if AllEvidence <= env.files {
        state := SetStep(state, Certificate, if env.bundleCertified then Passed else WaitingEvidence);
        state := state.(status := if env.bundleCertified then Certified else InProgress);
        state := state.(blockers := env.bundleBlocked);
      } else {
        state := state.(status := InProgress);
        state := state.(blockers := state.blockers + ["certification_evidence_incomplete"]);
      }
      Record(At(BlockStage), env);
    }

    /** Lines 619-624. */
    method Close(env: Env)
      requires Tracks(At(BlockStage), env)
      modifies this`disk, this`state, this`run
      ensures Tracks(TickDone, env) && old(run) <= run && disk == Some(state)
      ensures CloseEffect(old(state), state)
    {
      if AnyFailure(state) {
        state := state.(status := Blocked);
      }
      Record(At(WriteStage), env);
      disk := Some(state);
      Record(TickDone, env);
    }

    /** Lines 469-506: soak start, webhook, backup. */
    method Prepare(env: Env)
      requires Tracks(At(SoakStage), env)
      modifies this`disk, this`state, this`started, this`run
      ensures Tracks(At(RestoreStage), env) && old(run) <= run
      ensures PrepareEffect(old(state), state, env)
    {
      TryStep(PaperSoakStart, env, !env.paperStateExists, SoakStage);
      WatchWebhook(env);
      RunBackup(env);
    }

    /** Lines 488-493. */
    method WatchWebhook(env: Env)
      requires Tracks(At(WebhookStage), env)
      modifies this`disk, this`state, this`run
      ensures Tracks(At(BackupStage), env) && old(run) <= run
      ensures WebhookEffect(old(state), state, env)
    {
      if env.webhookConfigured {
        LaunchWebhook(env);
      } else {
        state := state.(blockers := state.blockers + ["external_webhook_not_configured"]);
        Record(At(BackupStage), env);
      }
    }

    /** Lines 508-559: restore drill, then service faults. */
    method Exercise(env: Env)
      requires Tracks(At(RestoreStage), env)
      modifies this`disk, this`state, this`started, this`run
      ensures Tracks(At(MatrixStage), env) && old(run) <= run
      ensures ExerciseEffect(old(state), state, env)
    {
      TryStep(RestoreDrill, env, StatusOf(state, Backup) == Passed, RestoreStage);
      TryStep(ServiceFaults, env, StatusOf(state, RestoreDrill) == Passed, FaultsStage);
    }

    /** Lines 561-581: the matrix and the end of the soak. */
    method Conclude(env: Env)
      requires Tracks(At(MatrixStage), env)
      modifies this`disk, this`state, this`started, this`run
      ensures Tracks(At(BundleStage), env) && old(run) <= run
      ensures ConcludeEffect(old(state), state, env)
    {
      RecordMatrix(env);
      TryStep(PaperSoakFinalize, env, env.matrixPassed && env.paperReady && !env.soakFileExists, FinalizeStage);
    }

    /** `_tick`: its whole effect; a tick that leaves CERTIFIED has earned it. */
    method Tick(env: Env, ghost last: Env)
      requires Tracks(Idle, last)
      modifies this
      ensures Tracks(TickDone, env) && old(run) <= run && disk == Some(state)
      ensures TickEffect(config, old(state), state, env)
      ensures state.status == Certified ==> CertificateEarned(config, state, env) && NoneBad(state)
    {
      var proceed := CheckRelease(env, last);
      if !proceed {
        return;
      }
      Work(env);
      ClearedEffect(config, old(state), state, env);
      Earned(env);
    }

    /** What holds at the end of every tick. */
    lemma Earned(env: Env)
      requires Tracks(TickDone, env)
      ensures state.status == Certified ==> CertificateEarned(config, state, env) && NoneBad(state)
    {
      CertifiedEnd(config, run);
    }

    /** Lines 469-624. */
    method Work(env: Env)
      requires Tracks(At(SoakStage), env) && state.blockers == []
      modifies this`disk, this`state, this`started, this`run
      ensures Tracks(TickDone, env) && old(run) <= run && disk == Some(state)
      ensures OneShotEffect(old(state), state, env) && OtherEffect(old(state), state, env) && OverallEffect(state, env)
    {
      ghost var s0 := state;
      Prepare(env);
      ghost var s1 := state;
      Exercise(env);
      ghost var s2 := state;
      Conclude(env);
      ghost var s3 := state;
      BuildBundle(env);
      ghost var s4 := state;
      Close(env);
      assert Stages(s0, s1, s2, s3, s4, state, env);
      StagesOneShot(s0, s1, s2, s3, s4, state, env);
      StagesOther(s0, s1, s2, s3, s4, state, env);
      StagesBlockers(s0, s1, s2, s3, env);
      StagesOverall(s3, s4, state, env);
    }

    /** Lines 649-656: the stop is written and the process ends. */
    method Stop(ghost last: Env)
      requires Tracks(Idle, last) || Tracks(TickDone, last)
      modifies this`state, this`disk, this`run
      ensures IsRun(config, run) && old(run) <= run
      ensures state == old(state).(status := Stopped) && disk == Some(state)
    {
      state := state.(status := Stopped);
      Record(StopRequested, last);
      disk := Some(state);
      ExtendRun(config, run, World(disk, Down, started));
      run := run + [World(disk, Down, started)];
    }

    /** `run_loop` over the turns it meets; `None` while it is still looping. */
    method Loop(turns: seq<Turn>, once: bool, stopAtExit: bool, ghost last: Env)
      returns (exit: Option<int>, ghost met: nat)
      requires Tracks(Idle, last)
      modifies this
      ensures IsRun(config, run) && old(run) <= run
      ensures exit.Some? ==> disk == Some(state)
      ensures exit.Some? ==>
                exit.value == if state.status in {InProgress, WaitingPrerequisites, Certified} then 0 else 2
      ensures exit.Some? && state.status == Certified ==>
                exists k :: 0 <= k < |turns| && turns[k].TickWith? &&
                            CertificateEarned(config, state, turns[k].env) && NoneBad(state)
      ensures met <= |turns| && (once ==> met <= 1) && forall k :: 0 <= k < met - 1 ==> turns[k].TickWith?
      ensures exit.None? ==>
                met == |turns| && (met > 0 ==> turns[met - 1].TickWith? && !once && state.status != Certified)
      ensures exit.Some? ==> met > 0 && (turns[met - 1].StopFile? || stopAtExit ==> state.status == Stopped)
      ensures exit.Some? && state.status != Stopped ==> once || state.status == Certified
    {
      ghost var seen := last;
      var stopped := false;
      var done := false;
      var i := 0;
      while !done
        invariant 0 <= i <= |turns| && old(run) <= run && IsRun(config, run)
        invariant forall k :: 0 <= k < i - 1 ==> turns[k].TickWith?
        invariant !done && i > 0 ==> turns[i - 1].TickWith? && !once && state.status != Certified
        invariant done ==> i > 0 && stopped == turns[i - 1].StopFile?
        invariant done && !stopped ==> once || state.status == Certified
        invariant once && !done ==> i == 0
        invariant once ==> i <= 1
        invariant !done ==> !stopped && Tracks(Idle, seen)
        invariant done ==> if stopped then Tracks(Idle, seen) else Tracks(TickDone, seen)
        invariant done && !stopped ==> disk == Some(state)
        invariant done && !stopped ==> 0 < i && turns[i - 1] == TickWith(seen)
        invariant done && !stopped && state.status == Certified ==>
                    CertificateEarned(config, state, seen) && NoneBad(state)
        decreases !done, |turns| - i
      {
        if i == |turns| {
          return None, i;
        }
        i := i + 1;
        match turns[i - 1]
        case StopFile =>
          stopped, done := true, true;
        case TickWith(env) =>
          Tick(env, seen);
          seen := env;
          DoneMeansSaved(config, run);
          if once || state.status == Certified {
            done := true;
          } else {
            Record(Idle, seen);
          }
      }
      if stopped || stopAtExit {
        Stop(seen);
      }
      met := i;
      exit := Some(if state.status in {InProgress, WaitingPrerequisites, Certified} then 0 else 2);
    }
  }

  /** A tick is done only once its state has been written. */
  lemma DoneMeansSaved(c: Config, run: seq<World>)
    requires IsRun(c, run) && run[|run| - 1].process.Up? && run[|run| - 1].process.pc == TickDone
    ensures run[|run| - 1].disk == Some(run[|run| - 1].process.mem)
  {
    var i := |run| - 2;
    assert i >= 0 && StepAt(c, run, i);
  }
}

/** What the status CERTIFIED means while it stands in the campaign's state file, in every state of
    every run. scripts/run_post_migration_certification_campaign.py:444-664. */
module CertifiedFile {
  import opened Wrappers
  import opened Campaign

  ghost predicate TickCompleted(w: World) {
    w.process.Up? && w.process.pc == TickDone
  }

  /** Step `k` of the run wrote the STOPPED state of a requested stop. */
  ghost predicate StopWritten(run: seq<World>, k: nat)
    requires k < |run|
  {
    k > 0 && run[k - 1].process.Up? && run[k - 1].process.pc == StopRequested &&
    run[k].disk == Some(run[k - 1].process.mem)
  }

  /** The tick completed at `j` certified, and up to `i` no tick completed and no stop was written
      after it. */
  ghost predicate LastWordCertified(run: seq<World>, j: nat, i: nat)
    requires j <= i < |run|
  {
    && TickCompleted(run[j]) && run[j].process.mem.status == Certified
    && forall k :: j < k <= i ==> !TickCompleted(run[k]) && !StopWritten(run, k)
  }

  /** Until the tick decides its own status, memory carries the status of the file. */
  ghost predicate Carried(w: World) {
    w.process.Up? && w.process.pc !in {At(BlockStage), At(WriteStage), StopRequested} ==>
      w.process.mem.status == Load(w).status
  }

  lemma StageCarried(s: State, env: Env, stage: Stage)
    requires stage !in {BundleStage, BlockStage, WriteStage}
    ensures var p := RunStage(s, env, stage); p.Up? && p.mem.status == s.status
  {
  }

  lemma NextCarried(c: Config, w: World, w': World)
    requires Carried(w) && Next(c, w, w')
    ensures Carried(w')
  {
    if w.process.Up? && w.process.pc.At? && w.process.pc.stage !in {BundleStage, BlockStage, WriteStage} {
      StageCarried(w.process.mem, w.process.env, w.process.pc.stage);
    }
  }

  lemma {:induction false} RunCarried(c: Config, run: seq<World>, i: nat)
    requires IsRun(c, run) && i < |run|
    ensures Carried(run[i])
  {
    if i > 0 {
      RunCarried(c, run, i - 1);
      assert StepAt(c, run, i - 1);
      NextCarried(c, run[i - 1], run[i]);
    }
  }

  /** A completed tick is on disk. */
  lemma CompletedSaved(c: Config, run: seq<World>, i: nat)
    requires IsRun(c, run) && i < |run| && TickCompleted(run[i])
    ensures run[i].disk == Some(run[i].process.mem)
  {
    assert i > 0 && StepAt(c, run, i - 1);
  }

  /** Other steps leave the status in the file alone. */
  lemma StatusKept(c: Config, run: seq<World>, i: nat)
    requires IsRun(c, run) && i + 1 < |run| && !TickCompleted(run[i + 1]) && !StopWritten(run, i + 1)
    ensures Load(run[i + 1]).status == Load(run[i]).status
  {
    RunCarried(c, run, i);
    assert StepAt(c, run, i);
  }

  /** In every state of every run the file says CERTIFIED exactly when the last thing that decided
      its status was a completed tick that certified: not a later tick and not a stop. */
  lemma {:induction false} FileCertifiedIff(c: Config, run: seq<World>, i: nat)
    requires IsRun(c, run) && i < |run|
    ensures Load(run[i]).status == Certified <==> exists j :: 0 <= j <= i && LastWordCertified(run, j, i)
  {
    if TickCompleted(run[i]) {
      CompletedSaved(c, run, i);
      if run[i].process.mem.status == Certified {
        assert LastWordCertified(run, i, i);
      }
    } else if i > 0 {
      var before := i - 1;
      FileCertifiedIff(c, run, before);
      assert StepAt(c, run, before);
      if !StopWritten(run, i) {
        StatusKept(c, run, before);
        if j :| 0 <= j <= before && LastWordCertified(run, j, before) {
          assert LastWordCertified(run, j, i);
        }
        if j :| 0 <= j <= i && LastWordCertified(run, j, i) {
          assert LastWordCertified(run, j, before);
        }
      } else {
        StopDecides(c, run, i);
      }
    }
  }

  lemma StopDecides(c: Config, run: seq<World>, i: nat)
    requires IsRun(c, run) && i < |run| && StopWritten(run, i)
    ensures Load(run[i]).status == Stopped && !TickCompleted(run[i])
  {
    assert StepAt(c, run, i - 1);
    StopStatus(c, run, i - 1);
  }

  /** A requested stop is STOPPED in memory. */
  lemma StopStatus(c: Config, run: seq<World>, i: nat)
    requires IsRun(c, run) && i < |run| && run[i].process.Up? && run[i].process.pc == StopRequested
    ensures run[i].process.mem.status == Stopped
  {
    assert i > 0 && StepAt(c, run, i - 1);
  }

  /** So behind every CERTIFIED in the file there is a completed tick that earned it, and at the end
      of a tick it is that tick itself, with no failed step beside it. */
  lemma FileCertifiedEarned(c: Config, run: seq<World>, i: nat)
    requires IsRun(c, run) && i < |run| && Load(run[i]).status == Certified
    ensures exists j :: 0 <= j <= i && LastWordCertified(run, j, i) &&
                        CertificateEarned(c, run[j].process.mem, run[j].process.env) && NoneBad(run[j].process.mem)
    ensures TickCompleted(run[i]) ==>
              CertificateEarned(c, Load(run[i]), run[i].process.env) && NoneBad(Load(run[i]))
  {
    FileCertifiedIff(c, run, i);
    var j :| 0 <= j <= i && LastWordCertified(run, j, i);
    CertifiedTickEarned(c, run, j);
    if TickCompleted(run[i]) {
      CompletedSaved(c, run, i);
      CertifiedTickEarned(c, run, i);
    }
  }

  // ----- When CERTIFIED stands beside a failure -----

  predicate Bad(v: Status) {
    v == Failed || v == Indeterminate
  }

  /** Step `k` of the run saved the one-shot step `n` as FAILED or INDETERMINATE. */
  ghost predicate SavedBad(run: seq<World>, k: nat, n: StepName)
    requires k < |run|
  {
    k > 0 && !Bad(DiskStatus(run[k - 1], n)) && Bad(DiskStatus(run[k], n))
  }

  /** Between a state without and a state with the failure it was saved. */
  lemma {:induction false} SavedBetween(run: seq<World>, j: nat, i: nat, n: StepName) returns (k: nat)
    requires j < i < |run| && !Bad(DiskStatus(run[j], n)) && Bad(DiskStatus(run[i], n))
    ensures j < k <= i && SavedBad(run, k, n)
    decreases i
  {
    if Bad(DiskStatus(run[i - 1], n)) {
      k := SavedBetween(run, j, i - 1, n);
    } else {
      k := i;
    }
  }

  /** A certified tick was followed, before any other tick completed or a stop was written, by a
      save of step `n` as FAILED or INDETERMINATE. */
  ghost predicate CertifiedThenBad(run: seq<World>, j: nat, k: nat, i: nat, n: StepName)
    requires i < |run|
  {
    j < k <= i && LastWordCertified(run, j, i) && SavedBad(run, k, n)
  }

  lemma CertifiedNotBad(c: Config, run: seq<World>, j: nat, n: StepName)
    requires IsRun(c, run) && j < |run| && TickCompleted(run[j]) && run[j].process.mem.status == Certified
    ensures !Bad(DiskStatus(run[j], n))
  {
    CompletedSaved(c, run, j);
    CertifiedTickEarned(c, run, j);
  }

  /** In every state of every run the file says CERTIFIED beside a failed or indeterminate one-shot
      step exactly when a certified tick had the last word and the step was saved so since. */
  lemma CertifiedBesideBadIff(c: Config, run: seq<World>, i: nat, n: StepName)
    requires IsRun(c, run) && i < |run| && n in OneShot
    ensures Load(run[i]).status == Certified && Bad(DiskStatus(run[i], n)) <==>
            exists j, k :: CertifiedThenBad(run, j, k, i, n)
  {
    FileCertifiedIff(c, run, i);
    if Load(run[i]).status == Certified && Bad(DiskStatus(run[i], n)) {
      var j :| 0 <= j <= i && LastWordCertified(run, j, i);
      CertifiedNotBad(c, run, j, n);
      var k := SavedBetween(run, j, i, n);
      assert CertifiedThenBad(run, j, k, i, n);
    }
    if j, k :| CertifiedThenBad(run, j, k, i, n) {
      TerminalForever(c, run, k, i, n);
    }
  }

  // ----- Runs that leave CERTIFIED beside a failure -----

  lemma AdvanceRun(c: Config, run: seq<World>) returns (run': seq<World>)
    requires IsRun(c, run)
    requires var p := run[|run| - 1].process; p.Up? && !(p.pc in {Booted, Idle, TickDone, StopRequested})
    ensures run' == run + [Advance(run[|run| - 1])] && IsRun(c, run')
  {
    ExtendRun(c, run, Advance(run[|run| - 1]));
    run' := run + [Advance(run[|run| - 1])];
  }

  /** Run step `n` from the stage that enters it: mark, save, act, judge, save. */
  lemma PerformStep(c: Config, run: seq<World>, s: State, env: Env, stage: Stage, n: StepName)
    returns (run': seq<World>)
    requires IsRun(c, run) && run[|run| - 1].process == Up(s, At(stage), env) && stage != WriteStage
    requires RunStage(s, env, stage) == Up(SetStep(s, n, Running), Marked(n), env)
    ensures IsRun(c, run') && run <= run'
    ensures var t := SetStep(s, n, Verdict(env, n));
            run'[|run'| - 1] == World(Some(t), Up(t, At(StageAfter(n)), env), run[|run| - 1].started + [n])
  {
    var marked := AdvanceRun(c, run);
    var saved := AdvanceRun(c, marked);
    var acting := AdvanceRun(c, saved);
    var judged := AdvanceRun(c, acting);
    run' := AdvanceRun(c, judged);
    assert SetStep(SetStep(s, n, Running), n, Verdict(env, n)) == SetStep(s, n, Verdict(env, n));
  }

  const SampleConfig: Config := Config("abc", "r1")

  /** A tick in which everything asked of the outside succeeds, on an existing soak. */
  const GoodEnv: Env := Env(
    Health(Some("abc"), Some("r1")), "abc", true,
    map[Backup := Exit(0), RestoreDrill := Exit(0), ServiceFaults := Exit(0)],
    true, File(true, true), false, true, true, true, AllEvidence, true, [])

  /** The same, but the soak's state file is gone and starting a new soak fails. */
  const LostSoakEnv: Env := GoodEnv.(paperStateExists := false)

  const Worked: seq<StepName> := [Backup, RestoreDrill, ServiceFaults]

  const WorkedState: State := State(
    map[ExternalWebhook := Passed, Backup := Passed, RestoreDrill := Passed, ServiceFaults := Passed], Initialized, [])

  const GoodState: State := State(
    map[ExternalWebhook := Passed, Backup := Passed, RestoreDrill := Passed, ServiceFaults := Passed,
        FaultMatrix := Passed, Certificate := Passed], Certified, [])

  /** From nothing to the backup of the first tick. */
  lemma OpenGoodTick() returns (run: seq<World>)
    ensures IsRun(SampleConfig, run)
    ensures var s := SetStep(NewState, ExternalWebhook, Passed);
            run[|run| - 1] == World(Some(NewState), Up(s, At(BackupStage), GoodEnv), [])
  {
    var c, env := SampleConfig, GoodEnv;
    var down := World(None, Down, []);
    var booted := World(None, Up(NewState, Booted, env), []);
    var idle := World(Some(NewState), Up(NewState, Idle, env), []);
    var begun := World(Some(NewState), Up(NewState, At(SoakStage), env), []);
    run := [down];
    assert Recover(NewState) == NewState;
    ExtendRun(c, run, booted);
    run := run + [booted];
    ExtendRun(c, run, idle);
    run := run + [idle];
    ExtendRun(c, run, begun);
    run := run + [begun];
    run := AdvanceRun(c, run);
    run := AdvanceRun(c, run);
  }

  /** From there through backup, restore drill and service faults. */
  lemma WorkGoodTick() returns (run: seq<World>)
    ensures IsRun(SampleConfig, run)
    ensures run[|run| - 1] == World(Some(WorkedState), Up(WorkedState, At(MatrixStage), GoodEnv), Worked)
  {
    var c, env := SampleConfig, GoodEnv;
    run := OpenGoodTick();
    var s1 := SetStep(NewState, ExternalWebhook, Passed);
    run := PerformStep(c, run, s1, env, BackupStage, Backup);
    var s2 := SetStep(s1, Backup, Passed);
    run := PerformStep(c, run, s2, env, RestoreStage, RestoreDrill);
    var s3 := SetStep(s2, RestoreDrill, Passed);
    run := PerformStep(c, run, s3, env, FaultsStage, ServiceFaults);
    assert SetStep(s3, ServiceFaults, Passed) == WorkedState;
  }

  /** From there to the end of the first certified tick. */
  lemma CertifiedRun() returns (run: seq<World>)
    ensures IsRun(SampleConfig, run)
    ensures run[|run| - 1] == World(Some(GoodState), Up(GoodState, TickDone, GoodEnv), Worked)
  {
    var c := SampleConfig;
    run := WorkGoodTick();
    run := AdvanceRun(c, run);
    run := AdvanceRun(c, run);
    run := AdvanceRun(c, run);
    assert run[|run| - 1].process == Up(GoodState, At(BlockStage), GoodEnv);
    assert !AnyFailure(GoodState);
    run := AdvanceRun(c, run);
    run := AdvanceRun(c, run);
  }

  /** After the certified tick the coordinator ends, is started again and finds the soak gone. */
  lemma RestartedRun() returns (run: seq<World>)
    ensures IsRun(SampleConfig, run)
    ensures run[|run| - 1] ==
            World(Some(GoodState), Up(GoodState, At(SoakStage), LostSoakEnv), Worked)
  {
    var c, did := SampleConfig, Worked;
    run := CertifiedRun();
    var down := World(Some(GoodState), Down, did);
    var booted := World(Some(GoodState), Up(GoodState, Booted, LostSoakEnv), did);
    var idle := World(Some(GoodState), Up(GoodState, Idle, LostSoakEnv), did);
    var begun := World(Some(GoodState), Up(GoodState, At(SoakStage), LostSoakEnv), did);
    assert Recover(GoodState) == GoodState;
    ExtendRun(c, run, down);
    run := run + [down];
    ExtendRun(c, run, booted);
    run := run + [booted];
    ExtendRun(c, run, idle);
    run := run + [idle];
    ExtendRun(c, run, begun);
    run := run + [begun];
  }

  /** In the middle of a tick the file may say CERTIFIED beside a step that has just failed. */
  lemma CertifiedBesideFailure()
    ensures exists run, i :: IsRun(SampleConfig, run) && 0 <= i < |run| &&
              Load(run[i]).status == Certified && DiskStatus(run[i], PaperSoakStart) == Failed
  {
    var run := RestartedRun();
    run := PerformStep(SampleConfig, run, GoodState, LostSoakEnv, SoakStage, PaperSoakStart);
    var i := |run| - 1;
    assert Load(run[i]).status == Certified && DiskStatus(run[i], PaperSoakStart) == Failed;
  }

  /** And a crash while the action runs leaves CERTIFIED beside INDETERMINATE after recovery. */
  lemma CertifiedBesideInterruption()
    ensures exists run, i :: IsRun(SampleConfig, run) && 0 <= i < |run| &&
              Load(run[i]).status == Certified && DiskStatus(run[i], PaperSoakStart) == Indeterminate
  {
    var c := SampleConfig;
    var run := RestartedRun();
    run := AdvanceRun(c, run);
    run := AdvanceRun(c, run);
    var s := SetStep(GoodState, PaperSoakStart, Running);
    assert run[|run| - 1].disk == Some(s);
    var down := run[|run| - 1].(process := Down);
    ExtendRun(c, run, down);
    run := run + [down];
    var booted := down.(process := Up(Recover(s), Booted, LostSoakEnv));
    ExtendRun(c, run, booted);
    run := run + [booted];
    var idle := World(Some(Recover(s)), Up(Recover(s), Idle, LostSoakEnv), down.started);
    ExtendRun(c, run, idle);
    run := run + [idle];
    var i := |run| - 1;
    assert Load(run[i]).status == Certified && DiskStatus(run[i], PaperSoakStart) == Indeterminate;
  }
}

/** The certification campaign as a transition system: what is on disk, what the coordinator
    holds in memory, where in a tick it is, and which one-shot actions were ever started.
    One coordinator process and one writer of the state file are assumed; an exception that
    escapes a tick ends the process and is a crash.
    scripts/run_post_migration_certification_campaign.py:171-249, 283-338, 444-664. */
module Campaign {
  import opened Wrappers

  datatype StepName =
    | PaperSoakStart | Backup | RestoreDrill | ServiceFaults | PaperSoakFinalize
    | ExternalWebhook | FaultMatrix | Certificate

  datatype Status = Pending | Running | Passed | Failed | Indeterminate | WaitingEvidence

  datatype Overall =
    | Initialized | InProgress | WaitingPrerequisites | Blocked | Certified | Stopped

  /** The state file: the step table, the overall status and the blocker codes. */
  datatype State = State(steps: map<StepName, Status>, status: Overall, blockers: seq<string>)

  datatype Config = Config(gitSha: string, releaseId: string)

  datatype Health = Unavailable | Health(gitSha: Option<string>, releaseId: Option<string>)

  /** How a command ended: its exit code, or an exception such as a timeout. */
  datatype Outcome = Exit(code: int) | Raised

  datatype WebhookFile = NoFile | File(passed: bool, thirdParty: bool)

  datatype Evidence =
    | ReleaseConvergence | LocalDataCertification | SupplyChain | RestoreDrillFile
    | FaultMatrixFile | PaperSoak | ExternalWebhookFile

  const AllEvidence: set<Evidence> :=
    {ReleaseConvergence, LocalDataCertification, SupplyChain, RestoreDrillFile,
     FaultMatrixFile, PaperSoak, ExternalWebhookFile}

  /** Everything one tick learns from outside. */
  datatype Env = Env(
    health: Health,
    currentGit: string,
    paperStateExists: bool,
    outcome: map<StepName, Outcome>,
    webhookConfigured: bool,
    webhookFile: WebhookFile,
    webhookAlive: bool,
    matrixPassed: bool,
    paperReady: bool,
    soakFileExists: bool,
    files: set<Evidence>,
    bundleCertified: bool,
    bundleBlocked: seq<string>)

  const OneShot: set<StepName> := {PaperSoakStart, Backup, RestoreDrill, ServiceFaults, PaperSoakFinalize}

  const NewState: State := State(map[], Initialized, [])

  /** `_step`: an absent step reads as PENDING. */
  function StatusOf(s: State, n: StepName): Status {
    if n in s.steps then s.steps[n] else Pending
  }

  /** `_set_step`. */
  function SetStep(s: State, n: StepName, v: Status): State {
    s.(steps := s.steps[n := v])
  }

  predicate Terminal(v: Status) {
    v == Passed || v == Failed || v == Indeterminate
  }

  /** `_recover_interrupted`. */
  function Recover(s: State): State {
    s.(steps := map n | n in s.steps ::
         if s.steps[n] == Running && n != ExternalWebhook then Indeterminate else s.steps[n])
  }

  function Verdict(env: Env, n: StepName): Status {
    if n in env.outcome && env.outcome[n] == Exit(0) then Passed else Failed
  }

  predicate IdentityMatches(c: Config, env: Env) {
    && env.currentGit == c.gitSha
    && env.health == Health(Some(c.gitSha), Some(c.releaseId))
  }

  predicate AnyFailure(s: State) {
    exists n :: n in s.steps && (s.steps[n] == Failed || s.steps[n] == Indeterminate)
  }

  /** No step is FAILED or INDETERMINATE. */
  ghost predicate NoneBad(s: State) {
    forall n :: n in s.steps ==> s.steps[n] !in {Failed, Indeterminate}
  }

  // ----- Micro-steps -----

  datatype Stage =
    | SoakStage | WebhookStage | BackupStage | RestoreStage | FaultsStage | MatrixStage
    | FinalizeStage | BundleStage | BlockStage | WriteStage

  /** Where the coordinator is. For a one-shot step: marked RUNNING in memory, saved, its action
      started, its result known in memory. */
  datatype PC =
    | Booted
    | Idle
    | At(stage: Stage)
    | Marked(step: StepName)
    | Saved(step: StepName)
    | Acting(step: StepName)
    | Judged(step: StepName)
    | WebhookLaunched
    | TickDone
    | StopRequested

  datatype Process = Down | Up(mem: State, pc: PC, env: Env)

  /** `started` is the history of one-shot actions that began. */
  datatype World = World(disk: Option<State>, process: Process, started: seq<StepName>)

  function StageAfter(n: StepName): Stage {
    match n
    case PaperSoakStart => WebhookStage
    case Backup => RestoreStage
    case RestoreDrill => FaultsStage
    case ServiceFaults => MatrixStage
    case _ => BundleStage
  }

  /** The guard of `_run_once`; the backup block at line 496 tests PENDING directly. */
  predicate MayRun(s: State, n: StepName) {
    if n == Backup then StatusOf(s, n) == Pending
    else !Terminal(StatusOf(s, n)) && StatusOf(s, n) != Running
  }

  function Enter(s: State, env: Env, n: StepName, wanted: bool): Process {
    if wanted && MayRun(s, n) then Up(SetStep(s, n, Running), Marked(n), env)
    else Up(s, At(StageAfter(n)), env)
  }

  /** Lines 447-467: the start of a tick. */
  function Begin(c: Config, s: State, env: Env): Process {
    if env.health.Unavailable? then
      Up(s.(status := WaitingPrerequisites, blockers := ["api_health_unavailable"]), At(WriteStage), env)
    else if !IdentityMatches(c, env) then
      Up(s.(status := Blocked, blockers := ["release_identity_mismatch"]), At(WriteStage), env)
    else
      Up(s.(blockers := []), At(SoakStage), env)
  }

  /** `_launch_webhook`. */
  function Webhook(s: State, env: Env): Process {
    var next := At(BackupStage);
    if !env.webhookConfigured then
      Up(s.(blockers := s.blockers + ["external_webhook_not_configured"]), next, env)
    else if env.webhookFile.File? then
      if env.webhookFile.passed && env.webhookFile.thirdParty then Up(SetStep(s, ExternalWebhook, Passed), next, env)
      else if !env.webhookAlive then Up(SetStep(s, ExternalWebhook, Failed), next, env)
      else Up(s, next, env)
    else if StatusOf(s, ExternalWebhook) in {Failed, Indeterminate} || env.webhookAlive then Up(s, next, env)
    else Up(SetStep(s, ExternalWebhook, Running), WebhookLaunched, env)
  }

  /** Lines 583-618. */
  function Bundle(s: State, env: Env): State {
    if AllEvidence <= env.files then
      SetStep(s, Certificate, if env.bundleCertified then Passed else WaitingEvidence)
        .(status := if env.bundleCertified then Certified else InProgress, blockers := env.bundleBlocked)
    else
      s.(status := InProgress, blockers := s.blockers + ["certification_evidence_incomplete"])
  }

  /** One stage of a tick that neither writes the file nor starts an action. */
  function RunStage(s: State, env: Env, stage: Stage): Process
    requires stage != WriteStage
  {
    match stage
    case SoakStage => Enter(s, env, PaperSoakStart, !env.paperStateExists)
    case WebhookStage => Webhook(s, env)
    case BackupStage => Enter(s, env, Backup, true)
    case RestoreStage => Enter(s, env, RestoreDrill, StatusOf(s, Backup) == Passed)
    case FaultsStage => Enter(s, env, ServiceFaults, StatusOf(s, RestoreDrill) == Passed)
    case MatrixStage =>
      var next := At(FinalizeStage);
      if env.matrixPassed then Up(SetStep(s, FaultMatrix, Passed), next, env)
      else
        var blockers := s.blockers + ["fault_scenarios_missing"];
        Up(SetStep(s, FaultMatrix, WaitingEvidence).(blockers := blockers), next, env)
    case FinalizeStage =>
      Enter(s, env, PaperSoakFinalize, env.matrixPassed && env.paperReady && !env.soakFileExists)
    case BundleStage => Up(Bundle(s, env), At(BlockStage), env)
    case BlockStage => Up(if AnyFailure(s) then s.(status := Blocked) else s, At(WriteStage), env)
  }

  /** What the running coordinator does next inside a tick. */
  function Advance(w: World): World
    requires w.process.Up? && !(w.process.pc in {Booted, Idle, TickDone, StopRequested})
  {
    var Up(s, pc, env) := w.process;
    match pc
    case At(stage) =>
      if stage == WriteStage then w.(disk := Some(s), process := Up(s, TickDone, env))
      else w.(process := RunStage(s, env, stage))
    case Marked(n) => w.(disk := Some(s), process := Up(s, Saved(n), env))
    case Saved(n) => w.(started := w.started + [n], process := Up(s, Acting(n), env))
    case Acting(n) => w.(process := Up(SetStep(s, n, Verdict(env, n)), Judged(n), env))
    case Judged(n) => w.(disk := Some(s), process := Up(s, At(StageAfter(n)), env))
    case WebhookLaunched => w.(disk := Some(s), process := Up(s, At(BackupStage), env))
  }

  function Load(w: World): State {
    if w.disk.Some? then w.disk.value else NewState
  }

  /** One step of the world: a crash at any point, a restart, or the coordinator moving on. */
  ghost predicate Next(c: Config, w: World, w': World) {
    match w.process
    case Down =>
      w'.process.Up? && w' == w.(process := Up(Recover(Load(w)), Booted, w'.process.env))
    case Up(s, pc, env) =>
      || w' == w.(process := Down)
      || (match pc
          case Booted => w' == w.(disk := Some(s), process := Up(s, Idle, env))
          case Idle => w'.process.Up? &&
            (|| w' == w.(process := Begin(c, s, w'.process.env))
             || w' == w.(process := Up(s.(status := Stopped), StopRequested, env)))
          case TickDone =>
            || w' == w.(process := Up(s, Idle, env))
            || w' == w.(process := Up(s.(status := Stopped), StopRequested, env))
          case StopRequested => w' == w.(disk := Some(s), process := Down)
          case _ => w' == Advance(w))
  }

  ghost predicate Start(w: World) {
    w.process.Down? && w.started == [] && (w.disk == None || w.disk == Some(NewState))
  }

  ghost predicate IsRun(c: Config, run: seq<World>) {
    && run != [] && Start(run[0])
    && forall i {:trigger StepAt(c, run, i)} :: 0 <= i < |run| - 1 ==> StepAt(c, run, i)
  }

  ghost predicate StepAt(c: Config, run: seq<World>, i: nat)
    requires i + 1 < |run|
  {
    Next(c, run[i], run[i + 1])
  }

  lemma ExtendRun(c: Config, run: seq<World>, w: World)
    requires IsRun(c, run) && Next(c, run[|run| - 1], w)
    ensures IsRun(c, run + [w])
  {
    var run' := run + [w];
    forall i | 0 <= i < |run'| - 1 ensures StepAt(c, run', i) {
      if i < |run| - 1 {
        assert StepAt(c, run, i);
      }
    }
  }

  // ----- The invariant of every run -----

  function DiskStatus(w: World, n: StepName): Status {
    StatusOf(Load(w), n)
  }

  /** Later one-shot steps have left PENDING only after the earlier ones passed. */
  predicate Gated(s: State) {
    && (StatusOf(s, ServiceFaults) != Pending ==> StatusOf(s, RestoreDrill) == Passed)
    && (StatusOf(s, RestoreDrill) != Pending ==> StatusOf(s, Backup) == Passed)
    && (forall n :: n in OneShot ==> StatusOf(s, n) != WaitingEvidence)
  }

  /** What the file says about a one-shot step bounds how often its action began. */
  ghost predicate CountAllowed(v: Status, count: nat) {
    match v
    case Pending => count == 0
    case Running => count <= 1
    case Passed => count == 1
    case Failed => count == 1
    case Indeterminate => count <= 1
    case WaitingEvidence => false
  }

  ghost predicate Counted(w: World) {
    forall n :: n in OneShot ==> CountAllowed(DiskStatus(w, n), multiset(w.started)[n])
  }

  /** A step that was carried out passed exactly if its command ended with exit code 0; any other
      code, an exception and a missing outcome are failures. */
  ghost predicate JudgedBy(env: Env, n: StepName, v: Status) {
    if n in env.outcome && env.outcome[n] == Exit(0) then v == Passed else v == Failed
  }

  /** What must hold outside for the two steps of the Paper soak to be wanted. */
  ghost predicate Wanted(env: Env, n: StepName) {
    && (n == PaperSoakStart ==> !env.paperStateExists)
    && (n == PaperSoakFinalize ==> env.matrixPassed && env.paperReady && !env.soakFileExists)
  }

  /** How memory and file differ on step `n` when the coordinator is at `pc`. */
  ghost predicate InStep(w: World, n: StepName)
    requires w.process.Up?
  {
    var Up(s, pc, env) := w.process;
    match pc
    case Booted => s == Recover(Load(w))
    case Marked(m) =>
      if m == n then DiskStatus(w, n) == Pending && StatusOf(s, n) == Running else StatusOf(s, n) == DiskStatus(w, n)
    case Saved(m) =>
      StatusOf(s, n) == DiskStatus(w, n) && (m == n ==> StatusOf(s, n) == Running && multiset(w.started)[n] == 0)
    case Acting(m) =>
      StatusOf(s, n) == DiskStatus(w, n) && (m == n ==> StatusOf(s, n) == Running && multiset(w.started)[n] == 1)
    case Judged(m) =>
      if m == n then DiskStatus(w, n) == Running && JudgedBy(env, n, StatusOf(s, n)) && multiset(w.started)[n] == 1
      else StatusOf(s, n) == DiskStatus(w, n)
    case _ => StatusOf(s, n) == DiskStatus(w, n)
  }

  predicate StepOf(pc: PC, n: StepName) {
    match pc
    case Marked(m) => m == n
    case Saved(m) => m == n
    case Acting(m) => m == n
    case Judged(m) => m == n
    case _ => false
  }

  /** Once the identity check has passed it holds to the end of the tick. */
  predicate PastIdentity(pc: PC) {
    pc.Marked? || pc.Saved? || pc.Acting? || pc.Judged? || pc.WebhookLaunched? ||
    (pc.At? && pc.stage != WriteStage)
  }

  /** Source, runtime and configuration name one commit, runtime and configuration one release. */
  ghost predicate SameRelease(c: Config, env: Env) {
    env.currentGit == c.gitSha && env.health == Health(Some(c.gitSha), Some(c.releaseId))
  }

  /** What a tick that is about to report, or has reported, CERTIFIED must have seen. */
  ghost predicate CertificateEarned(c: Config, s: State, env: Env) {
    && SameRelease(c, env)
    && (forall e: Evidence :: e in env.files)
    && env.bundleCertified && s.blockers == env.bundleBlocked
    && StatusOf(s, Certificate) == Passed
  }

  ghost predicate MemoryOk(c: Config, w: World)
    requires w.process.Up?
  {
    var Up(s, pc, env) := w.process;
    && Gated(s)
    && (forall n :: n in OneShot ==> InStep(w, n))
    && (forall n :: StepOf(pc, n) ==> n in OneShot && Wanted(env, n))
    && (PastIdentity(pc) ==> IdentityMatches(c, env))
    && (pc == At(BlockStage) && s.status == Certified ==> CertificateEarned(c, s, env))
    && ((pc == At(WriteStage) || pc == TickDone) && s.status == Certified ==>
          CertificateEarned(c, s, env) && !AnyFailure(s))
  }

  ghost predicate Inv(c: Config, w: World) {
    && Gated(Load(w))
    && Counted(w)
    && (w.process.Up? ==> MemoryOk(c, w))
  }

  lemma StartInv(c: Config, w: World)
    requires Start(w)
    ensures Inv(c, w)
  {
  }

  lemma RecoverKeeps(s: State)
    requires Gated(s)
    ensures Gated(Recover(s))
    ensures forall n :: StatusOf(Recover(s), n) ==
              if StatusOf(s, n) == Running && n != ExternalWebhook then Indeterminate else StatusOf(s, n)
  {
  }

  /** Points of a tick at which memory and file agree on every one-shot step. */
  predicate Settled(pc: PC) {
    pc in {Idle, WebhookLaunched, TickDone, StopRequested} || pc.At?
  }

  /** A move that leaves the one-shot steps alone keeps the invariant. */
  lemma QuietInv(c: Config, w: World, s': State, pc': PC, env': Env)
    requires Inv(c, w) && w.process.Up? && Settled(w.process.pc) && Settled(pc')
    requires forall n :: n in OneShot ==> StatusOf(s', n) == StatusOf(w.process.mem, n)
    requires PastIdentity(pc') ==> IdentityMatches(c, env')
    requires pc' in {At(BlockStage), At(WriteStage), TickDone} && s'.status == Certified ==>
               CertificateEarned(c, s', env')
    requires pc' in {At(WriteStage), TickDone} && s'.status == Certified ==> !AnyFailure(s')
    ensures Inv(c, w.(process := Up(s', pc', env')))
  {
    var w' := w.(process := Up(s', pc', env'));
    assert forall n :: DiskStatus(w', n) == DiskStatus(w, n);
  }

  /** Writing the file at a settled point keeps the invariant. */
  lemma WriteInv(c: Config, w: World)
    requires Inv(c, w) && w.process.Up? && Settled(w.process.pc)
    ensures Inv(c, w.(disk := Some(w.process.mem)))
  {
    var w' := w.(disk := Some(w.process.mem));
    forall n | n in OneShot ensures DiskStatus(w', n) == DiskStatus(w, n) && InStep(w', n) {
      assert InStep(w, n);
    }
  }

  /** Marking a pending step RUNNING in memory keeps the invariant. */
  lemma MarkInv(c: Config, w: World, n: StepName)
    requires Inv(c, w) && w.process.Up? && w.process.pc.At? && w.process.pc.stage != WriteStage && n in OneShot
    requires StatusOf(w.process.mem, n) == Pending
    requires n == RestoreDrill ==> StatusOf(w.process.mem, Backup) == Passed
    requires n == ServiceFaults ==> StatusOf(w.process.mem, RestoreDrill) == Passed
    requires Wanted(w.process.env, n)
    ensures Inv(c, w.(process := Up(SetStep(w.process.mem, n, Running), Marked(n), w.process.env)))
  {
    var s := w.process.mem;
    var w' := w.(process := Up(SetStep(s, n, Running), Marked(n), w.process.env));
    assert forall m :: StatusOf(w'.process.mem, m) == if m == n then Running else StatusOf(s, m);
    forall m | m in OneShot ensures InStep(w', m) {
      assert InStep(w, m);
    }
  }

  lemma EnterInv(c: Config, w: World, n: StepName, wanted: bool)
    requires Inv(c, w) && w.process.Up? && w.process.pc.At? && w.process.pc.stage != WriteStage && n in OneShot
    requires wanted && n == RestoreDrill ==> StatusOf(w.process.mem, Backup) == Passed
    requires wanted && n == ServiceFaults ==> StatusOf(w.process.mem, RestoreDrill) == Passed
    requires wanted ==> Wanted(w.process.env, n)
    ensures Inv(c, w.(process := Enter(w.process.mem, w.process.env, n, wanted)))
  {
    var s, env := w.process.mem, w.process.env;
    if wanted && MayRun(s, n) {
      MarkInv(c, w, n);
    } else {
      QuietInv(c, w, s, At(StageAfter(n)), env);
    }
  }

  /** The webhook and matrix stages touch only steps that are not one-shot. */
  lemma ObserveQuiet(s: State, env: Env, stage: Stage)
    requires stage in {WebhookStage, MatrixStage}
    ensures var p := RunStage(s, env, stage);
            && p.Up? && p.env == env && p.pc in {At(BackupStage), WebhookLaunched, At(FinalizeStage)}
            && forall n :: n in OneShot ==> StatusOf(p.mem, n) == StatusOf(s, n)
  {
  }

  lemma ObserveInv(c: Config, w: World, stage: Stage)
    requires Inv(c, w) && w.process.Up? && w.process.pc == At(stage) && stage in {WebhookStage, MatrixStage}
    ensures Inv(c, w.(process := RunStage(w.process.mem, w.process.env, stage)))
  {
    ObserveQuiet(w.process.mem, w.process.env, stage);
    var p := RunStage(w.process.mem, w.process.env, stage);
    var s', pc', env' := p.mem, p.pc, p.env;
    assert p == Up(s', pc', env');
    QuietInv(c, w, s', pc', env');
  }

  lemma AllSeven(files: set<Evidence>)
    ensures AllEvidence <= files <==> forall e: Evidence :: e in files
  {
    forall e: Evidence ensures e in AllEvidence {
      match e
      case ReleaseConvergence =>
      case LocalDataCertification =>
      case SupplyChain =>
      case RestoreDrillFile =>
      case FaultMatrixFile =>
      case PaperSoak =>
      case ExternalWebhookFile =>
    }
  }

  lemma BundleInv(c: Config, w: World)
    requires Inv(c, w) && w.process.Up? && w.process.pc == At(BundleStage)
    ensures Inv(c, w.(process := RunStage(w.process.mem, w.process.env, BundleStage)))
  {
    var s' := Bundle(w.process.mem, w.process.env);
    AllSeven(w.process.env.files);
    assert forall n :: n in OneShot ==> StatusOf(s', n) == StatusOf(w.process.mem, n);
    QuietInv(c, w, s', At(BlockStage), w.process.env);
  }

  lemma BlockInv(c: Config, w: World)
    requires Inv(c, w) && w.process.Up? && w.process.pc == At(BlockStage)
    ensures Inv(c, w.(process := RunStage(w.process.mem, w.process.env, BlockStage)))
  {
    var s := w.process.mem;
    QuietInv(c, w, if AnyFailure(s) then s.(status := Blocked) else s, At(WriteStage), w.process.env);
  }

  lemma StageInv(c: Config, w: World, stage: Stage)
    requires Inv(c, w) && w.process.Up? && w.process.pc == At(stage) && stage != WriteStage
    ensures Inv(c, w.(process := RunStage(w.process.mem, w.process.env, stage)))
  {
    var s, env := w.process.mem, w.process.env;
    match stage
    case SoakStage => EnterInv(c, w, PaperSoakStart, !env.paperStateExists);
    case WebhookStage => ObserveInv(c, w, stage);
    case BackupStage => EnterInv(c, w, Backup, true);
    case RestoreStage => EnterInv(c, w, RestoreDrill, StatusOf(s, Backup) == Passed);
    case FaultsStage => EnterInv(c, w, ServiceFaults, StatusOf(s, RestoreDrill) == Passed);
    case MatrixStage => ObserveInv(c, w, stage);
    case FinalizeStage => EnterInv(c, w, PaperSoakFinalize, env.matrixPassed && env.paperReady && !env.soakFileExists);
    case BundleStage => BundleInv(c, w);
    case BlockStage => BlockInv(c, w);
  }

  lemma MarkedInv(c: Config, w: World)
    requires Inv(c, w) && w.process.Up? && w.process.pc.Marked?
    ensures Inv(c, Advance(w))
  {
    var w' := Advance(w);
    var k := w.process.pc.step;
    forall n | n in OneShot ensures InStep(w', n) && CountAllowed(DiskStatus(w', n), multiset(w'.started)[n]) {
      assert InStep(w, n) && CountAllowed(DiskStatus(w, n), multiset(w.started)[n]);
    }
  }

  lemma SavedInv(c: Config, w: World)
    requires Inv(c, w) && w.process.Up? && w.process.pc.Saved?
    ensures Inv(c, Advance(w))
  {
    var w' := Advance(w);
    forall n | n in OneShot ensures InStep(w', n) && CountAllowed(DiskStatus(w', n), multiset(w'.started)[n]) {
      assert InStep(w, n) && CountAllowed(DiskStatus(w, n), multiset(w.started)[n]);
      assert multiset(w'.started) == multiset(w.started) + multiset{w.process.pc.step};
    }
  }

  lemma ActingInv(c: Config, w: World)
    requires Inv(c, w) && w.process.Up? && w.process.pc.Acting?
    ensures Inv(c, Advance(w))
  {
    var w' := Advance(w);
    var k := w.process.pc.step;
    assert StepOf(w.process.pc, k);
    forall n | n in OneShot ensures InStep(w', n) && CountAllowed(DiskStatus(w', n), multiset(w'.started)[n]) {
      assert InStep(w, n) && CountAllowed(DiskStatus(w, n), multiset(w.started)[n]);
    }
    assert InStep(w, k);
  }

  lemma JudgedInv(c: Config, w: World)
    requires Inv(c, w) && w.process.Up? && w.process.pc.Judged?
    ensures Inv(c, Advance(w))
  {
    var w' := Advance(w);
    forall n | n in OneShot ensures InStep(w', n) && CountAllowed(DiskStatus(w', n), multiset(w'.started)[n]) {
      assert InStep(w, n) && CountAllowed(DiskStatus(w, n), multiset(w.started)[n]);
    }
  }

  lemma BootInv(c: Config, w: World, w': World)
    requires Inv(c, w) && w.process.Down? && Next(c, w, w')
    ensures Inv(c, w')
  {
    RecoverKeeps(Load(w));
    assert forall n :: DiskStatus(w', n) == DiskStatus(w, n);
  }

  lemma BootedInv(c: Config, w: World)
    requires Inv(c, w) && w.process.Up? && w.process.pc == Booted
    ensures Inv(c, w.(disk := Some(w.process.mem), process := Up(w.process.mem, Idle, w.process.env)))
  {
    RecoverKeeps(Load(w));
    assert InStep(w, Backup);
    forall n | n in OneShot ensures CountAllowed(StatusOf(w.process.mem, n), multiset(w.started)[n]) {
      assert CountAllowed(DiskStatus(w, n), multiset(w.started)[n]);
    }
  }

  /** A running coordinator's own next move, apart from a crash. */
  lemma MoveInv(c: Config, w: World, w': World)
    requires Inv(c, w) && Next(c, w, w') && w.process.Up? && w' != w.(process := Down)
    ensures Inv(c, w')
  {
    var Up(s, pc, env) := w.process;
    match pc
    case Booted => BootedInv(c, w);
    case Idle => QuietInv(c, w, w'.process.mem, w'.process.pc, w'.process.env);
    case TickDone => QuietInv(c, w, w'.process.mem, w'.process.pc, env);
    case StopRequested => WriteInv(c, w);
    case At(stage) =>
      if stage == WriteStage {
        WriteInv(c, w);
        QuietInv(c, w.(disk := Some(s)), s, TickDone, env);
      } else {
        StageInv(c, w, stage);
      }
    case Marked(n) => MarkedInv(c, w);
    case Saved(n) => SavedInv(c, w);
    case Acting(n) => ActingInv(c, w);
    case Judged(n) => JudgedInv(c, w);
    case WebhookLaunched =>
      WriteInv(c, w);
      QuietInv(c, w.(disk := Some(s)), s, At(BackupStage), env);
  }

  lemma NextInv(c: Config, w: World, w': World)
    requires Inv(c, w) && Next(c, w, w')
    ensures Inv(c, w')
  {
    if w.process.Down? {
      BootInv(c, w, w');
    } else if w' != w.(process := Down) {
      MoveInv(c, w, w');
    }
  }

  // ----- What every run keeps -----

  lemma {:induction false} RunInv(c: Config, run: seq<World>, i: nat)
    requires IsRun(c, run) && i < |run|
    ensures Inv(c, run[i])
  {
    if i == 0 {
      StartInv(c, run[0]);
    } else {
      RunInv(c, run, i - 1);
      assert StepAt(c, run, i - 1);
      NextInv(c, run[i - 1], run[i]);
    }
  }

  /** Over every run with crashes and restarts anywhere, the action of a one-shot step begins at
      most once; exactly once if the file says it passed or failed, never if it is pending. */
  lemma StartedAtMostOnce(c: Config, run: seq<World>, i: nat, n: StepName)
    requires IsRun(c, run) && i < |run| && n in OneShot
    ensures multiset(run[i].started)[n] <= 1
    ensures DiskStatus(run[i], n) in {Passed, Failed} ==> multiset(run[i].started)[n] == 1
    ensures DiskStatus(run[i], n) == Pending ==> multiset(run[i].started)[n] == 0
  {
    RunInv(c, run, i);
    assert CountAllowed(DiskStatus(run[i], n), multiset(run[i].started)[n]);
  }

  /** Write-ahead: an action begins only while the file already records its step as RUNNING, and
      only if it never began before. */
  lemma MarkedBeforeStarted(c: Config, w: World, w': World)
    requires Inv(c, w) && Next(c, w, w') && w'.started != w.started
    ensures exists n :: n in OneShot && w'.started == w.started + [n] && DiskStatus(w, n) == Running &&
                        multiset(w.started)[n] == 0
  {
    var n := w.process.pc.step;
    assert StepOf(w.process.pc, n);
    assert InStep(w, n);
  }

  /** An action begins only in a tick whose three identities match, the soak is only started when it
      has no state, and only finalized beside a passed matrix, once ready and without evidence. */
  lemma StartConditions(c: Config, w: World, w': World)
    requires Inv(c, w) && Next(c, w, w') && w'.started != w.started
    ensures exists n :: w'.started == w.started + [n] && SameRelease(c, w.process.env) && Wanted(w.process.env, n)
  {
    var n := w.process.pc.step;
    assert StepOf(w.process.pc, n);
    assert w'.started == w.started + [n];
  }

  /** Step `n` was judged: its action was carried out and its command ended with exit code 0. */
  ghost predicate JudgedPassed(w: World, n: StepName) {
    w.process.Up? && w.process.pc == Judged(n) &&
    n in w.process.env.outcome && w.process.env.outcome[n] == Exit(0)
  }

  lemma NewlyPassed(c: Config, w: World, w': World, n: StepName)
    requires Inv(c, w) && Next(c, w, w') && n in OneShot
    requires DiskStatus(w, n) != Passed && DiskStatus(w', n) == Passed
    ensures JudgedPassed(w, n)
  {
    RecoverKeeps(Load(w));
    if w.process.Up? {
      assert InStep(w, n);
    }
  }

  /** Behind every PASSED of a one-shot step on disk there is a command that ended with exit code 0. */
  lemma {:induction false} PassedWasJudged(c: Config, run: seq<World>, i: nat, n: StepName)
    requires IsRun(c, run) && i < |run| && n in OneShot && DiskStatus(run[i], n) == Passed
    ensures exists k :: 0 <= k < i && JudgedPassed(run[k], n)
  {
    if i > 0 {
      var before := i - 1;
      RunInv(c, run, before);
      assert StepAt(c, run, before);
      if DiskStatus(run[before], n) == Passed {
        PassedWasJudged(c, run, before, n);
      } else {
        NewlyPassed(c, run[before], run[i], n);
      }
    }
  }

  /** In every state that is ever on disk the gates hold. */
  lemma PersistedGates(c: Config, run: seq<World>, i: nat)
    requires IsRun(c, run) && i < |run|
    ensures DiskStatus(run[i], ServiceFaults) != Pending ==> DiskStatus(run[i], RestoreDrill) == Passed
    ensures DiskStatus(run[i], RestoreDrill) != Pending ==> DiskStatus(run[i], Backup) == Passed
  {
    RunInv(c, run, i);
  }

  lemma NextKeepsTerminal(c: Config, w: World, w': World, n: StepName)
    requires Inv(c, w) && Next(c, w, w') && n in OneShot && Terminal(DiskStatus(w, n))
    ensures DiskStatus(w', n) == DiskStatus(w, n)
  {
    RecoverKeeps(Load(w));
    if w.process.Up? {
      assert InStep(w, n);
    }
  }

  /** PASSED, FAILED and INDETERMINATE are final for a one-shot step. */
  lemma {:induction false} TerminalForever(c: Config, run: seq<World>, i: nat, j: nat, n: StepName)
    requires IsRun(c, run) && i <= j < |run| && n in OneShot
    requires DiskStatus(run[i], n) in {Passed, Failed, Indeterminate}
    ensures DiskStatus(run[j], n) == DiskStatus(run[i], n)
    decreases j
  {
    if i < j {
      TerminalForever(c, run, i, j - 1, n);
      RunInv(c, run, j - 1);
      assert StepAt(c, run, j - 1);
      NextKeepsTerminal(c, run[j - 1], run[j], n);
    }
  }

  /** Step `n` was RUNNING when the coordinator died, and its action had begun `count` times. */
  ghost predicate Interrupted(w: World, n: StepName, count: nat) {
    && multiset(w.started)[n] == count
    && (|| DiskStatus(w, n) == Indeterminate
        || (DiskStatus(w, n) == Running && (w.process.Down? || w.process.pc == Booted)))
  }

  lemma CountOthers(started: seq<StepName>, m: StepName, n: StepName)
    requires m != n
    ensures multiset(started + [m])[n] == multiset(started)[n]
  {
    assert multiset(started + [m]) == multiset(started) + multiset{m};
  }

  /** An action other than `n`'s does not count for `n`. */
  lemma OthersStart(c: Config, w: World, w': World, n: StepName)
    requires Inv(c, w) && Next(c, w, w') && DiskStatus(w, n) == Indeterminate
    ensures multiset(w'.started)[n] == multiset(w.started)[n]
  {
    if w'.started != w.started {
      MarkedBeforeStarted(c, w, w');
      var m :| m in OneShot && w'.started == w.started + [m] && DiskStatus(w, m) == Running;
      CountOthers(w.started, m, n);
    }
  }

  lemma NextKeepsInterrupted(c: Config, w: World, w': World, n: StepName, count: nat)
    requires Inv(c, w) && Next(c, w, w') && n in OneShot && Interrupted(w, n, count)
    ensures Interrupted(w', n, count)
  {
    if DiskStatus(w, n) == Indeterminate {
      OthersStart(c, w, w', n);
      NextKeepsTerminal(c, w, w', n);
    } else if w.process.Up? {
      assert InStep(w, n);
      RecoverKeeps(Load(w));
    }
  }

  /** A step that was RUNNING when the coordinator died is never started again, and its record
      never becomes anything but INDETERMINATE. */
  lemma {:induction false} InterruptedForever(c: Config, run: seq<World>, i: nat, j: nat, n: StepName, count: nat)
    requires IsRun(c, run) && i <= j < |run| && n in OneShot
    requires Interrupted(run[i], n, count)
    ensures Interrupted(run[j], n, count)
    decreases j
  {
    if i < j {
      InterruptedForever(c, run, i, j - 1, n, count);
      RunInv(c, run, j - 1);
      assert StepAt(c, run, j - 1);
      NextKeepsInterrupted(c, run[j - 1], run[j], n, count);
    }
  }

  /** A tick that completes with CERTIFIED saw matching identities, all seven evidence files and a
      certified bundle, and no step failed or is indeterminate. */
  lemma CertifiedTickEarned(c: Config, run: seq<World>, i: nat)
    requires IsRun(c, run) && i < |run|
    requires run[i].process.Up? && run[i].process.pc == TickDone && run[i].process.mem.status == Certified
    ensures CertificateEarned(c, run[i].process.mem, run[i].process.env)
    ensures NoneBad(run[i].process.mem)
  {
    RunInv(c, run, i);
  }

  /** Once a one-shot step is FAILED or INDETERMINATE on disk, no later tick certifies. */
  lemma NeverCertifiedAfterFailure(c: Config, run: seq<World>, i: nat, j: nat, n: StepName)
    requires IsRun(c, run) && i <= j < |run| && n in OneShot
    requires DiskStatus(run[i], n) in {Failed, Indeterminate}
    requires run[j].process.Up? && run[j].process.pc == TickDone
    ensures run[j].process.mem.status != Certified
  {
    TerminalForever(c, run, i, j, n);
    RunInv(c, run, j);
    assert InStep(run[j], n);
  }
}

# Verified model of the release, certification and audit scripts

This project models the algorithms and protocols inside the repository's operational scripts and
proves what they are for. The modules follow the program's structure:

- `Wrappers`, `Text`, `Sorting`, `Graphs`: options and results; stripping and lower case; stable
  sorting with its uniqueness and filtering laws; walks, reachability, components and cycles of
  finite directed graphs. They are shared by everything below.
- `StrongComponents`, `ImportCycles`, `ImportGraph`: the import graph of the backend, Tarjan's
  recursive search over it and the cycle report. The search is a class with the five mutable
  variables of `visit`; its result is proved to be exactly the strongly connected components with
  more than one module.
- `TableOrder`: the layered foreign-key ordering of tables and its cycle detection.
- `Campaign`, `CertifiedFile`, `Coordinator`: the crash-recoverable certification campaign.
  `Campaign` is a transition system with a persisted state, a volatile copy and a position inside the tick; a crash
  may happen between any two micro-steps. `CertifiedFile` says what the status CERTIFIED means while
  it stands in the state file. `Coordinator` is the imperative code, proved to take only
  steps of that system, so the theorems about every run hold for the code cut short anywhere.
- `Membership`: reverse replay of index-membership events against the forward replay, and the
  balance of termination events.
- `PaperSoak`: the observer's hash chain, its finalization and the campaign's readiness test.
- `FaultMatrix`, `ReleaseChecks`, `ReleaseReasons`, `ReleaseBundle`, `EvidencePipeline`: the fail-closed
  evidence pipeline, each evaluator against a simple specification, every reason exactly when it
  applies and in order, and how matrix, soak and certificate compose.
- `FaultScenarios`, `FaultSchedule`, `FaultRun`: fault scenarios as text, the plan of their
  injections, and the run that carries the plan out, in which every injection and day may raise.
- `CanonicalState`, `Encodings`: the canonical session state that level 5 compares, and a proof that
  the collision-free encodings it assumes exist.
- `WalkForward`: the level-4 walk-forward validator.

Functions that a method and its specification share are tied to their meaning in plain terms of the
inputs by lemmas named `...Meaning` or by the methods' own contracts.

Conventions. Timestamps are integers (seconds, or day numbers for dates) and elapsed days are exact
rationals. A JSON object is a datatype; a text field that is missing, null or empty is the empty
string. Raised errors are `Result`-like datatypes. Digests and the JSON text of a row are function
parameters, assumed injective only where a lemma says so. What the scripts learn from outside
(health checks, exit codes, files, databases) is an input of the model.

Places where a promised property does not hold in full, each with an input that shows it and the
exact condition under which it holds:

- Reverse replay does not undo every history. `Membership.TieBreaksRoundTrip` shows a delete and a
  re-add of one symbol on one day that are lost, and `Membership.ReplayUndoesHistory` proves that the
  round trip holds if and only if, for every symbol whose adds and deletes of its earliest date
  include a delete, the last listed of them is a delete. Events that are neither are ignored.
- Terminations balance exactly when the outgoing symbols are distinct
  (`Membership.BalancedIffDistinct`); a symbol named twice is deleted twice but replaced once
  (`Membership.RepeatedSymbolUnbalanced`).
- Printing and parsing a scenario loses the phases `after_run` (renamed) and `default` (refused):
  `FaultScenarios.AliasOthers` and the equivalence `FaultScenarios.PrintParseRoundTrip`.
- Level 5's scope comparison fails for scenarios out of schedule order (`FaultRun.OutOfOrderScope`),
  after a day that raises (`FaultRun.RaisingDayHides`) and when an injection raises
  (`FaultRun.MissingCheckpointHides`); `FaultRun.ScopeMatchesIff` and `FaultRun.EndToEndIff` are
  equivalences.
- A worker fault outside the checkpoint phases always fails the interruption check
  (`FaultRun.WorkerNeedsCheckpoint`); `FaultRun.RecoveryOkIff` is an equivalence.
- Digests do not compare numbers to eight decimals: a tiny negative number rounds to a negative zero,
  whose text differs. `CanonicalState.SignOfZeroDiffers` shows two such sessions. Equal digests
  always mean equal numbers (`CanonicalState.EquivalentNumerically`), and the converse holds where no
  projected field rounds to a negative zero (`CanonicalState.NumericIff`).
- The level-4 audit counts evidence windows without looking at their folds
  (`WalkForward.EvidenceMissesFold`); `WalkForward.EvidenceCoversIff` says when all folds are covered.
- The soak chain detects any change under an unchanged head digest but not a truncation:
  `PaperSoak.PrefixVerifies`.
- The state file may say CERTIFIED beside a failed or interrupted step, because writes in the middle
  of a tick keep the status of the last completed one: `CertifiedFile.CertifiedBesideFailure` and
  `CertifiedFile.CertifiedBesideInterruption` are such runs. `CertifiedFile.CertifiedBesideBadIff`
  says exactly when this is so, `CertifiedFile.FileCertifiedIff` when the file says CERTIFIED, and at
  the end of a tick it is earned.

`dafny verify dfyconfig.toml` checks the whole project.

## Model

| member | source | states |
|---|---|---|
| Graphs.AcyclicIffNoMutual | scripts/architecture_baseline.py:208-222 | Without self-edges a graph has a cycle exactly when two different nodes reach each other, which is why counting components counts cycles |
| StrongComponents.PushInv | scripts/architecture_baseline.py:151-155 | Entering a call keeps the invariant of the search: stack order, roots, explored nodes, closed components, reported components |
| StrongComponents.SetLowInv | scripts/architecture_baseline.py:159-161 | Updating a lowlink keeps the invariant |
| StrongComponents.LeaveInv | scripts/architecture_baseline.py:162-163 | Returning below the root keeps the invariant: every stack entry still reaches an active call below it |
| StrongComponents.ClosingComponent | scripts/architecture_baseline.py:164-170 | The stretch of the stack above a root is a maximal set of mutually reachable nodes |
| StrongComponents.PopInv | scripts/architecture_baseline.py:164-172 | Popping that stretch keeps the invariant, including that the reported lists are exactly the closed components with several nodes, pairwise disjoint |
| ImportCycles.ChildStep | scripts/architecture_baseline.py:157-159 | After a recursive call the lowlink of the caller is correct for one more successor and the invariant holds |
| ImportCycles.BackStep | scripts/architecture_baseline.py:160-161 | The same for a successor that is on the stack |
| ImportCycles.ScanLeave | scripts/architecture_baseline.py:162-163 | A call whose lowlink is smaller leaves its nodes on the stack, reaching something older |
| ImportCycles.ScanClose | scripts/architecture_baseline.py:164-172 | A call whose lowlink equals its index leaves the stack as it found it and its component closed |
| ImportCycles.Search.Visit | scripts/architecture_baseline.py:149-172 | One call keeps the invariant, terminates because the unindexed nodes shrink, rewrites nothing older, and either restores the stack or leaves a lower reachable index |
| ImportCycles.Search.Scan | scripts/architecture_baseline.py:156-161 | One turn of the loop over the successors, by its three cases |
| ImportCycles.Search.PopThrough | scripts/architecture_baseline.py:164-170 | The pop loop removes exactly the nodes from the root to the top, each once |
| ImportCycles.IdleStackEmpty | scripts/architecture_baseline.py:174-176 | With no call active the stack is empty and every indexed node is in a closed component |
| ImportCycles.StronglyConnectedComponents | scripts/architecture_baseline.py:135-177 | For every set of modules and edges the result is exactly the components with several nodes that the modules reach, each once and each in ascending order; shorter lists come first, equally long ones by the first name in which they differ; the stack is empty after each top-level visit |
| ImportCycles.ReportLeqMeaning | scripts/architecture_baseline.py:177-177 | The order of the report: shorter, or equally long and at the first difference the name that is ascending earlier |
| Sorting.StringLeqMeaning | scripts/architecture_baseline.py:172-177 | Strings ascend: a prefix comes first, else the smaller character at the first difference |
| ImportCycles.ReportUnique | scripts/architecture_baseline.py:174-177 | The report is a function of the graph: no order of traversal can change it |
| ImportCycles.CycleCountZero | scripts/architecture_baseline.py:208-222 | The number of reported components is zero exactly when the graph has no cycle |
| ImportGraph.KnownTarget | scripts/architecture_baseline.py:51-59 | Returns the longest dotted prefix of the stripped name that is a known module, and nothing only if no prefix is known |
| ImportGraph.ResolvesMeaning | scripts/architecture_baseline.py:52-59 | Resolution is on the name without the dots around it, to its longest known dotted prefix |
| Text.StripOfMeaning | scripts/architecture_baseline.py:52-52 | Stripping gives exactly the text between the first and the last character that is not stripped |
| ImportGraph.ResolvesUnique | scripts/architecture_baseline.py:51-59 | A name resolves to at most one module |
| ImportGraph.ImportTargets | scripts/architecture_baseline.py:92-96 | The targets are exactly the resolved candidates other than the module itself |
| ImportGraph.BuildReport | scripts/architecture_baseline.py:180-223 | For any files the edges are exactly the resolved imports between different modules, listed by source and then target in ascending order, the cycles are their component report, and cycleCount is zero exactly when the imports are acyclic |
| TableOrder.ReadyIsLayer | scripts/generate_postgres_baseline.py:157-176 | The tables ready in round r are exactly those whose longest dependency chain has length r |
| TableOrder.Repetition | scripts/generate_postgres_baseline.py:171-174 | Pigeonhole: a walk longer than the number of stuck tables repeats one |
| TableOrder.StuckLeadsToCycle | scripts/generate_postgres_baseline.py:171-174 | If no remaining table is ready, every remaining table leads to a cycle |
| TableOrder.AcyclicIffNoLoop | scripts/generate_postgres_baseline.py:161-170 | The dependency graph has a cycle exactly when the references themselves close a loop of different tables |
| TableOrder.LeadsToCycleChain | scripts/generate_postgres_baseline.py:157-176 | A table that leads to a cycle has dependency chains of every length, so it is never ready |
| TableOrder.FlattenTopological | scripts/generate_postgres_baseline.py:175-177 | Listing the rounds in turn lists no table twice and each after all its dependencies |
| TableOrder.LayersUnique | scripts/generate_postgres_baseline.py:155-176 | The rounds are a function of the schema alone |
| TableOrder.OrderTables | scripts/generate_postgres_baseline.py:145-177 | Succeeds exactly when no closed list of two or more included tables has each referencing the next, a different one; then lists every table once, after all other included tables it references, round by depth; otherwise names exactly the tables from which a cycle is reachable |
| Campaign.RecoverKeeps | scripts/run_post_migration_certification_campaign.py:627-632 | Recovery turns RUNNING into INDETERMINATE, except for the webhook, and changes nothing else |
| Campaign.MarkedInv | scripts/run_post_migration_certification_campaign.py:221-222 | Persisting the RUNNING mark keeps the invariant of the campaign |
| Campaign.SavedInv | scripts/run_post_migration_certification_campaign.py:222-236 | Starting the action after the mark is on disk keeps it |
| Campaign.StageInv | scripts/run_post_migration_certification_campaign.py:469-623 | Every stage of a tick keeps it |
| Campaign.NextInv | scripts/run_post_migration_certification_campaign.py:444-664 | Every step keeps it, crashes and restarts included |
| Campaign.RunInv | scripts/run_post_migration_certification_campaign.py:635-664 | It holds in every state of every run |
| Campaign.StartedAtMostOnce | scripts/run_post_migration_certification_campaign.py:206-249 | Over every run with crashes anywhere each one-shot action begins at most once, exactly once if recorded PASSED or FAILED, never while PENDING |
| Campaign.MarkedBeforeStarted | scripts/run_post_migration_certification_campaign.py:221-226 | An action begins only when its step is RUNNING on disk and it never began before |
| Campaign.StartConditions | scripts/run_post_migration_certification_campaign.py:455-477 | An action begins only while source, runtime and configuration agree; the soak is started only without a state and finalized only beside a passed matrix, ready and without evidence |
| Campaign.PassedWasJudged | scripts/run_post_migration_certification_campaign.py:236-249 | In every run, behind every PASSED of a one-shot step on disk there is a command for it that ended with exit code 0 |
| Campaign.NewlyPassed | scripts/run_post_migration_certification_campaign.py:241-248 | The step that newly records PASSED is the one that judged that exit code |
| Campaign.PersistedGates | scripts/run_post_migration_certification_campaign.py:495-559 | In every persisted state service faults left PENDING only after the restore drill passed, and the drill only after the backup passed |
| Campaign.TerminalForever | scripts/run_post_migration_certification_campaign.py:206-249 | PASSED, FAILED and INDETERMINATE never change for a one-shot step |
| Campaign.InterruptedForever | scripts/run_post_migration_certification_campaign.py:627-645 | A step that was RUNNING at a crash is never started again and ends INDETERMINATE |
| Campaign.CertifiedTickEarned | scripts/run_post_migration_certification_campaign.py:444-624 | A tick that completes CERTIFIED saw matching source, runtime and config identity, all seven evidence files and a certified bundle, and no step is FAILED or INDETERMINATE |
| Campaign.NeverCertifiedAfterFailure | scripts/run_post_migration_certification_campaign.py:619-624 | Once a one-shot step is FAILED or INDETERMINATE on disk no later completed tick is CERTIFIED |
| CertifiedFile.FileCertifiedIff | scripts/run_post_migration_certification_campaign.py:444-664 | In every state of every run the file says CERTIFIED exactly when some completed tick certified and since then no tick completed and no stop was written |
| CertifiedFile.FileCertifiedEarned | scripts/run_post_migration_certification_campaign.py:583-624 | Behind every CERTIFIED in the file there is a completed tick that earned it; at the end of a tick it is that tick, with no failed step beside it |
| CertifiedFile.CertifiedBesideBadIff | scripts/run_post_migration_certification_campaign.py:206-249 | In every state of every run the file says CERTIFIED beside a FAILED or INDETERMINATE one-shot step exactly when a certified tick had the last word on the status and the step was saved so since |
| CertifiedFile.CertifiedBesideFailure | scripts/run_post_migration_certification_campaign.py:469-477 | A concrete run after which the file says CERTIFIED beside a FAILED step, in the middle of a tick |
| CertifiedFile.CertifiedBesideInterruption | scripts/run_post_migration_certification_campaign.py:627-642 | A concrete run after which recovery leaves CERTIFIED beside an INDETERMINATE step |
| Coordinator.Process.constructor | scripts/run_post_migration_certification_campaign.py:639-642 | A restart loads, recovers and persists the state, as steps of the transition system |
| Coordinator.Process.RunOnce | scripts/run_post_migration_certification_campaign.py:206-249 | Takes only steps of the transition system; carries the step out exactly when it is absent, PENDING or waiting; then it is PASSED if its command ended with exit code 0 and FAILED if it ended otherwise or raised, saved, and nothing else changes; true exactly when the step is PASSED |
| Coordinator.Process.RunBackup | scripts/run_post_migration_certification_campaign.py:495-506 | The same for the backup, whose guard is PENDING alone |
| Coordinator.Process.LaunchWebhook | scripts/run_post_migration_certification_campaign.py:283-338 | Takes only steps of the transition system; the webhook ends PASSED or FAILED by its evidence, unchanged if it failed before or is alive, RUNNING otherwise, a relaunch is persisted, and nothing else changes |
| Coordinator.Process.CheckRelease | scripts/run_post_migration_certification_campaign.py:447-467 | A tick goes on exactly when commit and release agree in source, runtime and configuration; otherwise status and blocker say why, and are saved |
| Coordinator.Process.Tick | scripts/run_post_migration_certification_campaign.py:444-624 | The whole effect of a tick on every step, the status and the blockers, in terms of what it observed; it is a run of the transition system, and CERTIFIED at its end was earned |
| Coordinator.Process.Loop | scripts/run_post_migration_certification_campaign.py:635-664 | The loop is a run of the transition system; what it returns and persists agree; `--once` meets one turn, CERTIFIED ends it, a stop file leaves STOPPED, and an exit with CERTIFIED was earned by the observations of one of its own ticks |
| Membership.ReplayDecides | scripts/import_csindex_csi300_pit.py:400-411 | For every list of events, ties included: a symbol with events is an initial member exactly when the last listed of its earliest events is a delete, then with that event's name, or its symbol if the event has none, and no listing date; one without events keeps its final record |
| Membership.DeriveInitialMembers | scripts/import_csindex_csi300_pit.py:400-411 | The loop returns exactly those records, in ascending order of symbols without repeats |
| Membership.IndexMeaning | scripts/import_csindex_csi300_pit.py:401-401 | Of several final records of a symbol the last listed counts |
| Membership.InitialRevealed | web/backend/app/services/csi300_pit.py:953-1003 | In a history without warnings the first event of a symbol reveals whether it was an initial member |
| Membership.ReplayUndoesHistory | scripts/import_csindex_csi300_pit.py:400-411 | Reverse replay of a history without warnings recovers the initial members if and only if no symbol lists a delete of its earliest date before a later non-delete of that date |
| Membership.DistinctKeysRoundTrip | scripts/import_csindex_csi300_pit.py:400-411 | With no two events sharing date and symbol the round trip always holds |
| Membership.TieBreaksRoundTrip | scripts/import_csindex_csi300_pit.py:402-410 | A concrete tie for which it fails |
| Membership.OfficialInitialMembers | scripts/import_csindex_csi300_pit.py:468-488 | Succeeds exactly when a snapshot exists and replaying the events after 8 April and up to 1 July 2005 leaves 300 members, and returns exactly those records |
| Membership.CountConserved | web/backend/app/services/csi300_pit.py:961-1002 | Members at the end plus deletes are members at the start plus adds |
| Membership.WindowConserves | scripts/import_csindex_csi300_pit.py:471-481 | The same conservation backwards, through the reconstruction |
| Membership.VariableTerminationEvents | scripts/import_csindex_csi300_pit.py:500-547 | Parses exactly when the lists are non-empty and equally long and every outgoing symbol has a delisting date; then a delete per outgoing company on its own date, and adds for the incoming ones in turn, dates ascending, one for each distinct symbol |
| Membership.BalancedIffDistinct | scripts/import_csindex_csi300_pit.py:509-547 | Adds and deletes have the same multiset of dates if and only if the outgoing symbols are distinct |
| Membership.RepeatedSymbolUnbalanced | scripts/import_csindex_csi300_pit.py:509-547 | A notice naming one outgoing symbol twice, for which adds and deletes differ |
| Membership.CumulativeBalance | scripts/import_csindex_csi300_pit.py:509-547 | Then up to every day as many adds as deletes have taken effect |
| PaperSoak.CheckChain | scripts/paper_soak_observer.py:223-231 | The loop accepts exactly the lists in which every sample carries its own digest and its predecessor's |
| PaperSoak.HeadFixesHistory | scripts/paper_soak_observer.py:223-231 | With an injective digest two verifying chains with the same last digest have equal length and content |
| PaperSoak.PrefixVerifies | scripts/paper_soak_observer.py:223-231 | Every prefix of a verifying chain verifies: truncation is not detected |
| PaperSoak.Observer.Start | scripts/paper_soak_observer.py:124-153 | Succeeds exactly under the stated conditions and leaves an empty, verifying state bound to the release, the stripped data release and manifest hash and the distinct non-blank accounts; otherwise the file is untouched and the error is the first objection |
| PaperSoak.Observer.TakeSample | scripts/paper_soak_observer.py:156-191 | Succeeds exactly for the starting release; appends one sample that tells every field observed, its predecessor's digest and its own, and keeps the chain verifying; otherwise the file is untouched and the error is the first objection |
| PaperSoak.EveryRunVerifies | scripts/paper_soak_observer.py:140-191 | After a start and any number of samples the chain verifies, no sample is lost, and each tells every field of its observation |
| PaperSoak.Finalize | scripts/paper_soak_observer.py:213-264 | Fails only without samples; the evidence carries the recorded identity, accounts and samples and the ascending distinct dates, and passes exactly when the seconds, the dates, the projections, the chain and the three recovery scenarios are all in order |
| PaperSoak.ObservedFinalizes | scripts/paper_soak_observer.py:156-264 | From observation to evidence: the ledger passed exactly when every observation's projection did, the dates are exactly the observed non-empty ones, and the chain is intact |
| PaperSoak.ReadyIffBoundsMet | scripts/run_post_migration_certification_campaign.py:408-424 | The campaign's readiness test equals the duration and date part of finalization |
| PaperSoak.ReadyMeetsBounds | scripts/run_post_migration_certification_campaign.py:408-424 | Whatever number of days is configured, a ready soak meets both bounds |
| PaperSoak.ReadyFinalizes | scripts/paper_soak_observer.py:218-240 | A ready, honestly recorded soak passes exactly when projections held and recovery passed |
| FaultMatrix.Builder.BindIdentity | scripts/build_fault_matrix.py:92-132 | After any sources the bound identity is the first that can be bound, and the errors are exactly what some source lacks or contradicts |
| FaultMatrix.Builder.BindService | scripts/build_fault_matrix.py:134-157 | Binds the service evidence's identity and every scenario of it that is an object, and lists it as a source |
| FaultMatrix.Builder.BindFile | scripts/build_fault_matrix.py:159-175 | Binds a scenario file's identity; a repeated name is recorded, not overwritten and not listed as a source |
| FaultMatrix.BuildMatrix | scripts/build_fault_matrix.py:74-220 | Passes exactly when the evidence files name one commit and one release, no scenario repeats and every one of the non-empty required list is demonstrated, all in terms of the files' own fields; missing, failed and incomplete lists, duplicates, identity errors and sources are exact |
| FaultMatrix.PassingMeaning | scripts/build_fault_matrix.py:92-203 | When a matrix passes, by the evidence files alone |
| FaultMatrix.FileMeaning | scripts/build_fault_matrix.py:33-71 | An entry made from a scenario file tells what the file says, with the source, status and time filled in for what it does not give; it is documented if no object that the file gives is empty |
| FaultMatrix.TableMeaning | scripts/build_fault_matrix.py:134-175 | The table holds exactly the scenarios that some source binds, and each entry tells what the first source to bind it says, repeats or not |
| FaultMatrix.FirstFilesDistinct | scripts/build_fault_matrix.py:159-175 | The listed scenario sources have different names, none of them bound by the service evidence |
| FaultMatrix.VerdictIsPassing | scripts/build_fault_matrix.py:177-203 | The verdict computed from the mutable tables is that specification |
| FaultMatrix.OrderIndependent | scripts/build_fault_matrix.py:159-203 | Permuting the scenario files changes neither the verdict nor the bound identity |
| ReleaseChecks.RequireAll | scripts/release_certification.py:60-69 | Calls of _require append the codes of the failing conditions, in order |
| ReleaseChecks.FailingMembers | scripts/release_certification.py:60-69 | Nothing is appended exactly when every condition holds, and a code is appended exactly when a failing check carries it |
| ReleaseReasons.ReasonGiven | scripts/release_certification.py:121-448 | Each of the 41 reasons is given exactly when its condition on policy, files and payloads holds |
| ReleaseReasons.ReasonsInOrder | scripts/release_certification.py:121-448 | The reasons come in the order of the sections |
| ReleaseReasons.SeenMeaning | scripts/release_certification.py:153-429 | A section sees its evidence exactly if it is required and loads |
| ReleaseReasons.LastedMeaning | scripts/release_certification.py:376-395 | The soak is long enough exactly by the seconds between its times and the policy's own days, or 21 |
| ReleaseBundle.FaultMeaning | scripts/release_certification.py:295-345 | The fault section is satisfied exactly when matrix and every required scenario passed, are complete and carry the release's identity; all its reasons are about faults |
| ReleaseBundle.CoreSections | scripts/release_certification.py:153-293 | The convergence, local data and restore sections, with the supply chain, hold exactly when the evidence is of one identified release that passed in production shape |
| ReleaseBundle.PaperSection | scripts/release_certification.py:365-448 | Given the core sections, the paper section holds exactly when soak and projection belong to the same release, passed in production shape and were observed long enough |
| ReleaseBundle.BuildBundle | scripts/release_certification.py:100-486 | Refuses unknown profiles and runtimes; certifies exactly a certifiable release; gives every reason exactly when it applies, in the order of the sections |
| ReleaseBundle.CertifiedIff | scripts/release_certification.py:117-450 | No reason is recorded exactly when evidence is complete, describes one identified release, passed throughout in production shape, was observed long enough and survived every required fault; a policy that does not list needed evidence never certifies |
| ReleaseBundle.ReasonsExact | scripts/release_certification.py:295-420 | A fault-related reason appears exactly when the fault section is not satisfied, and each reason about the mode, length, ledger and recovery of a paper soak exactly when it applies |
| ReleaseBundle.CertificateNeedsEvidence | scripts/release_certification.py:131-151 | A bundle without reasons had every needed evidence payload, even if the policy lists none |
| ReleaseBundle.CertificateBindsOneRelease | scripts/release_certification.py:153-408 | All evidence behind a bundle without reasons names the checked-out commit, one release id and one data release |
| EvidencePipeline.MatrixComposes | scripts/release_certification.py:295-345 | For every required list and all sources the fault section accepts a built matrix exactly when it passed and is for this release |
| EvidencePipeline.BuiltMatrixReasons | scripts/release_certification.py:295-345 | With a built matrix as evidence the bundle has a fault-related reason exactly when the sources do not pass or are for another release |
| EvidencePipeline.ReadySoakLongEnough | scripts/release_certification.py:83-90 | A soak judged ready and finalized is as long as any policy minimum up to the configured days |
| EvidencePipeline.ReadySoakNeverTooShort | scripts/release_certification.py:374-395 | So the bundle never reports paper_soak_too_short for it |
| EvidencePipeline.MatrixRecovers | scripts/paper_soak_observer.py:194-210 | Under a policy requiring the three interruption scenarios, recovery is recorded as passed exactly when the built matrix passes |
| EvidencePipeline.CampaignSoakPasses | scripts/run_post_migration_certification_campaign.py:569-581 | A ready, honestly recorded soak finalized beside a passing matrix passes exactly when the projections held at every sample |
| EvidencePipeline.CampaignSoakReasons | scripts/release_certification.py:374-420 | The evidence of such a soak puts no length and no recovery reason into the bundle, and a mode or ledger reason exactly when some projection did not hold |
| FaultScenarios.MatchIsFullMatch | scripts/run_level5_audit.py:91-98 | The parser returns groups exactly when the regular expression matches with those groups |
| FaultScenarios.WordMeaning | scripts/run_level5_audit.py:91-91 | The characters of a name and of a day |
| FaultScenarios.ParseItemMeaning | scripts/run_lean_paper_walkforward_acceptance.py:311-322 | Which tokens the walk-forward script accepts and as what: lower-case service, decimal positive day, and the shared phase that the name or alias stands for |
| FaultScenarios.ParseItemError | scripts/run_lean_paper_walkforward_acceptance.py:312-321 | Which error a refused token gives |
| FaultScenarios.ValidateItemMeaning | scripts/run_level5_audit.py:91-107 | The same for level 5, without aliases and with known services |
| FaultScenarios.ValidateItemError | scripts/run_level5_audit.py:92-102 | Which error it gives: service before phase before day |
| FaultScenarios.SplitMeaning | scripts/run_lean_paper_walkforward_acceptance.py:308-308 | The pieces are what lies between the commas, in order |
| FaultScenarios.DecimalRoundTrip | scripts/run_level5_audit.py:97-97 | A number survives printing and parsing |
| FaultScenarios.ParseFaultScenarios | scripts/run_lean_paper_walkforward_acceptance.py:301-323 | Splits, strips and parses in order: each item described by its scenario, or the first error |
| FaultScenarios.NormalizeAndValidateFaults | scripts/run_level5_audit.py:82-108 | The same for level 5; what it accepts has a known service, a positive day and a known phase |
| FaultScenarios.TokenRoundTrip | scripts/run_level5_audit.py:175-177 | A printed scenario is parsed back unchanged exactly for the phases both scripts share |
| FaultScenarios.AliasOthers | scripts/run_lean_paper_walkforward_acceptance.py:49-62 | The two phases that do not survive: after_run is renamed to post_run and default is not accepted |
| FaultScenarios.PrintParseRoundTrip | scripts/run_lean_paper_walkforward_acceptance.py:296-323 | The same for every list level 5 accepts |
| FaultScenarios.AuditRoundTrip | scripts/run_level5_audit.py:82-108 | Level 5 reads back every list it could have accepted, joined by commas |
| FaultSchedule.ScenariosByDayPhase | scripts/run_lean_paper_walkforward_acceptance.py:326-334 | A bucket per day that occurs, holding that day's scenarios sorted by phase and service |
| FaultSchedule.PlanConserves | scripts/run_lean_paper_walkforward_acceptance.py:683-848 | The plan is the reached scenarios as multisets: nothing lost, repeated or invented; a day that raises ends it |
| FaultSchedule.PlanIsSort | scripts/run_lean_paper_walkforward_acceptance.py:683-848 | The plan is the reached scenarios sorted by day, place in the day, phase and service |
| FaultSchedule.PlanMatchesIff | scripts/run_lean_paper_walkforward_acceptance.py:683-848 | The plan is the list itself exactly when every scenario is reached and the list is in schedule order |
| FaultSchedule.PlacesMeaning | scripts/run_lean_paper_walkforward_acceptance.py:683-848 | Which phases a day gets to, by what the loop meets on it |
| FaultRun.RunDays | scripts/run_lean_paper_walkforward_acceptance.py:683-848 | The daily loop, in which every injection and every day may raise: it finishes exactly when no day raises and every planned injection succeeds, and it recorded the plan, or the prefix carried out, with what each injection met |
| FaultRun.RunExact | scripts/run_lean_paper_walkforward_acceptance.py:683-848 | Every run is its plan carried out until an injection raises; a day that raises makes the run raise once the plan is done |
| FaultRun.RunMeaning | scripts/run_lean_paper_walkforward_acceptance.py:683-848 | When the loop finishes and what it recorded, for all scenarios, days and replies |
| FaultRun.RecordedMeaning | scripts/run_lean_paper_walkforward_acceptance.py:353-366 | What a recorded injection tells, and when an injection succeeds |
| FaultRun.InjectionsAreSort | scripts/run_lean_paper_walkforward_acceptance.py:683-848 | Whatever raises, the injections recorded are a prefix of the reached scenarios in schedule order, and all of them if none of these injections fails |
| FaultRun.InjectionsConserve | scripts/run_lean_paper_walkforward_acceptance.py:683-848 | No run records anything more often than it is listed and reached; without a failing injection everything reached is recorded exactly as often as listed |
| FaultRun.AllInjectedIff | scripts/run_lean_paper_walkforward_acceptance.py:943-944 | On a finished run the injection count equals the scenario count exactly when every scenario was reached |
| FaultRun.ScopeMatchesIff | scripts/run_level5_audit.py:767-775 | The run finishes and the scope comparison holds exactly when every scenario is reached, the list is in schedule order, no day raises and every injection succeeds |
| FaultRun.OutOfOrderScope | scripts/run_level5_audit.py:767-775 | Two scenarios against the calendar are never observed as listed, whatever the replies |
| FaultRun.RaisingDayHides | scripts/run_lean_paper_walkforward_acceptance.py:724-725 | A day that failed before ends the loop with nothing injected for the next day |
| FaultRun.MissingCheckpointHides | scripts/run_lean_paper_walkforward_acceptance.py:776-783 | A checkpoint that never appears ends the loop with nothing recorded |
| FaultRun.EndToEndIff | scripts/run_level5_audit.py:767-775 | For every list level 5 accepts, all days and all replies: printed, parsed and run, it is observed as asked exactly when all phases are shared, all scenarios are reached, the list is in schedule order, no day raises and every injection succeeds |
| FaultRun.StrictDaysEndToEnd | scripts/run_level5_audit.py:767-775 | On fresh days strictly increasing days in range, with injections that succeed, survive printing, parsing and the run unchanged |
| FaultRun.RecoveryOkIff | scripts/run_lean_paper_walkforward_acceptance.py:943-962 | On a finished loop the interruption check holds exactly when every scenario was reached, every worker fault is at a checkpoint, and each checkpoint injection met a live run and, for a worker, got a recovery task |
| FaultRun.WorkerNeedsCheckpoint | scripts/run_lean_paper_walkforward_acceptance.py:954-961 | A worker fault outside the checkpoint phases always fails the check |
| CanonicalState.RowsEqualIff | scripts/run_lean_paper_walkforward_acceptance.py:422-437 | Canonical rows are equal exactly when the projected and rounded rows, signs of zeros included, are equal as multisets |
| CanonicalState.ProjectMeaning | scripts/run_lean_paper_walkforward_acceptance.py:426-433 | Two records project alike exactly when their listed fields are canonically the same, missing ones counting as null |
| CanonicalState.CellsMeaning | scripts/run_lean_paper_walkforward_acceptance.py:414-419 | Values are canonically the same if equal, or numbers that round half-even to one count of 1e-8 and agree in the sign of a zero |
| CanonicalState.FieldLists | scripts/run_lean_paper_walkforward_acceptance.py:441-511 | The fields compared, kind by kind |
| CanonicalState.LedgerAmountMatters | scripts/run_lean_paper_walkforward_acceptance.py:469-482 | Ledger records with different amounts give different digests |
| CanonicalState.CanonicalEqualIff | scripts/run_lean_paper_walkforward_acceptance.py:440-511 | Canonical states are equal exactly when that holds for each of the five record kinds |
| CanonicalState.DigestDecidesEquivalence | scripts/run_level5_audit.py:758-762 | With collision-free digests level 5's comparison decides exactly this equivalence; an empty digest never agrees |
| CanonicalState.EquivalentNumerically | scripts/run_lean_paper_walkforward_acceptance.py:414-437 | Equal canonical states mean equal rows as numbers, signs of zeros left out |
| CanonicalState.NumericIff | scripts/run_lean_paper_walkforward_acceptance.py:414-437 | The two agree where no projected field of either session rounds to a negative zero |
| CanonicalState.SignOfZeroDiffers | scripts/run_lean_paper_walkforward_acceptance.py:414-437 | Cash drifts of 0 and -3.6e-12 are equal to eight decimals, but their sessions' digests differ |
| CanonicalState.RoundingStable | scripts/run_lean_paper_walkforward_acceptance.py:414-419 | A canonical value is its own canonical form |
| CanonicalState.RoundingNearest | scripts/run_lean_paper_walkforward_acceptance.py:417-418 | Rounding moves a number by at most half a unit of the eighth decimal and takes the nearest unit |
| CanonicalState.ProjectStable | scripts/run_lean_paper_walkforward_acceptance.py:426-433 | Canonicalizing a canonical row changes nothing |
| CanonicalState.StoredEquivalent | scripts/run_lean_paper_walkforward_acceptance.py:440-511 | A session and what is read back from its canonical state are equivalent |
| Encodings.EncodingsExist | scripts/run_lean_paper_walkforward_acceptance.py:998-1005 | Collision-free texts of canonical rows and states exist, so the comparison's assumptions can be met |
| WalkForward.Audit.Scan | scripts/run_level4_audit.py:283-297 | Groups the items by fold and bucket, fails exactly on a reversed window and warns exactly on one that does not parse |
| WalkForward.Audit.CheckFolds | scripts/run_level4_audit.py:303-316 | Adds no failure exactly when the folds have no gap, are enough, and some item is marked walk_forward; otherwise each kind exactly on its own condition |
| WalkForward.Audit.CheckGroup | scripts/run_level4_audit.py:318-354 | Adds no failure exactly when the group has one window per phase, in sequence if all dates parse; otherwise reports wrong phases, else wrong numbers, else each break of the sequence |
| WalkForward.Audit.CheckConfig | scripts/run_level4_audit.py:311-362 | Warns exactly on year parameters that do not parse or a stored summary that misses a fold |
| WalkForward.Audit.CheckEvidence | scripts/run_level4_audit.py:364-389 | Adds no failure exactly when there are at least as many evidence windows as folds and every window is in order; each kind of failure is reported exactly for a window that shows it |
| WalkForward.EvidenceMissesFold | scripts/run_level4_audit.py:368-370 | Two windows of one fold are accepted for two folds |
| WalkForward.EvidenceCoversIff | scripts/run_level4_audit.py:368-370 | Where every window names one of the folds, accepted evidence covers all folds exactly when it names as many different ones, so always when no two windows name the same |
| WalkForward.Audit.Validate | scripts/run_level4_audit.py:275-389 | Adds no failure exactly when items and evidence are in order, and no warning exactly when every window parses and, if there are folds, the year parameters parse and a stored summary covers them; each kind of failure or warning, with its fold, is added exactly when its own condition holds |
| WalkForward.FoldsFormRange | scripts/run_level4_audit.py:303-309 | The folds of accepted items are one contiguous range of at least the minimum size |
| WalkForward.AcceptedGroup | scripts/run_level4_audit.py:318-354 | Accepted items that parse have, per fold and bucket, exactly one train, one validation and one out-of-sample window, none reversed, strictly in that order |

## Left out

- File, network, subprocess, Docker and database access: their results are inputs.
- Interleavings of `_acquire_lock` and the state rewrite of the `launch` command: one coordinator and one writer of the state file are assumed, and an exception that escapes a tick is a crash.
- The webhook subprocess is not a one-shot step: it may be relaunched and its FAILED status is not final, so the run theorems do not claim otherwise.
- Step details, timestamps, the event log and the sampling command of a campaign tick: none of them is read by a guard of the model, and a step that is absent reads as PENDING.
- Extraction of candidate names from the syntax tree, of company pairs and dates from notices, of references from DDL, and the rewriting of DDL.
- Interval construction in the forward replay: only the active set and its warnings are modelled.
- `_parse_date_parts`, `_validate_rolling`, the retention planner and the module metrics: they would only add easy members.
- SHA-256, JSON text and binary floating point: digests and encodings are parameters, numbers are exact.
- Payloads of the wrong shape, which raise while the matrix is built.
- Text outside ASCII in scenario tokens.
- ReleaseBundle.BuildBundle: blocked reasons carry their codes but not their detail texts, and the hashes bound into the certificate are not modelled.
- CanonicalState.RoundingNearest: numbers are exact; the source rounds binary floats, whose rounding error is not modelled.
- WalkForward.Audit.Validate: failures and warnings carry their kind, and failures of a fold that fold, but not their texts, order or number.

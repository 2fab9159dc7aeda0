/** How the walk-forward script carries out its plan of faults, when its interruption check holds,
    and when the level-5 audit observes what it asked for.
    scripts/run_lean_paper_walkforward_acceptance.py:337-377, 683-848, 943-962 and
    scripts/run_level5_audit.py:767-775. What injections and requests meet outside is a parameter. */
module FaultRun {
  import opened Wrappers
  import opened Sorting
  import opened FaultScenarios
  import opened FaultSchedule

  // ----- Carrying out the injections -----

  datatype Checkpoint = Checkpoint(runStatus: string, paperRunId: string)

  /** What an injection meets outside: the checkpoint it waits for, if it appears, how the restart
      ended, and the task that a recovery was dispatched to. */
  datatype Reply = Reply(checkpoint: Option<Checkpoint>, exitCode: int, recovered: bool, taskId: string)

  type Replies = nat -> Reply

  /** A recorded injection; absent fields are empty. */
  datatype Injection = Injection(
    scenario: Scenario, faultAction: string, exitCode: int, recovered: bool, runStatus: string, taskId: string)

  datatype RunResult = Finished(injections: seq<Injection>) | Raised(injections: seq<Injection>)

  predicate AtCheckpoint(s: Scenario) {
    s.phase in CHECKPOINT_PHASES
  }

  predicate Worker(s: Scenario) {
    s.service == "worker"
  }

  /** The checkpoint did not appear, or a worker's run cannot be named: raised before recording. */
  predicate Lost(s: Scenario, r: Reply) {
    AtCheckpoint(s) && (r.checkpoint.None? || (Worker(s) && r.checkpoint.value.paperRunId == ""))
  }

  /** `_inject_fault` and what the checkpoint block adds to it. */
  function Recorded(s: Scenario, r: Reply): Injection {
    Injection(s, if Worker(s) then "sigkill_restart" else "compose_restart", r.exitCode, r.recovered,
              if AtCheckpoint(s) && r.checkpoint.Some? then r.checkpoint.value.runStatus else "",
              if AtCheckpoint(s) && Worker(s) then r.taskId else "")
  }

  predicate Recovered(i: Injection) {
    i.exitCode == 0 && i.recovered
  }

  predicate Good(s: Scenario, r: Reply) {
    !Lost(s, r) && Recovered(Recorded(s, r))
  }

  /** Inject what is planned, one after the other, until one raises. */
  function Play(made: seq<Injection>, plan: seq<Scenario>, replies: Replies): RunResult
    decreases |plan|
  {
    if plan == [] then Finished(made)
    else if Lost(plan[0], replies(|made|)) then Raised(made)
    else
      var next := made + [Recorded(plan[0], replies(|made|))];
      if Good(plan[0], replies(|made|)) then Play(next, plan[1..], replies) else Raised(next)
  }

  lemma {:induction false} PlaySplit(made: seq<Injection>, a: seq<Scenario>, b: seq<Scenario>, replies: Replies)
    ensures Play(made, a + b, replies) ==
            if Play(made, a, replies).Finished? then Play(Play(made, a, replies).injections, b, replies)
            else Play(made, a, replies)
    decreases |a|
  {
    if a == [] {
      assert a + b == b;
    } else {
      assert (a + b)[1..] == a[1..] + b;
      PlaySplit(made + [Recorded(a[0], replies(|made|))], a[1..], b, replies);
    }
  }

  /** What is recorded is what was planned, as far as it got, with the replies it met. */
  ghost predicate Records(plan: seq<Scenario>, replies: Replies, injections: seq<Injection>) {
    |injections| <= |plan| && forall i :: 0 <= i < |injections| ==> RecordAt(plan, replies, injections, i)
  }

  ghost predicate RecordAt(plan: seq<Scenario>, replies: Replies, injections: seq<Injection>, i: nat)
    requires i < |plan| && i < |injections|
  {
    RecordsReply(injections[i], plan[i], replies(i))
  }

  /** A recorded injection tells its scenario, the action taken, how the restart ended and, at a
      checkpoint, the run's status and a worker's recovery task. */
  ghost predicate RecordsReply(i: Injection, s: Scenario, r: Reply) {
    && i.scenario == s
    && i.faultAction == (if s.service == "worker" then "sigkill_restart" else "compose_restart")
    && i.exitCode == r.exitCode && i.recovered == r.recovered
    && i.runStatus == (if CheckpointPhase(s.phase) && r.checkpoint.Some? then r.checkpoint.value.runStatus else "")
    && i.taskId == (if CheckpointPhase(s.phase) && s.service == "worker" then r.taskId else "")
  }

  lemma RecordedMeaning(s: Scenario, r: Reply)
    ensures RecordsReply(Recorded(s, r), s, r)
    ensures Good(s, r) <==> Succeeds(s, r)
    ensures AtCheckpoint(s) <==> CheckpointPhase(s.phase)
  {
    NamesMeaning("", s.phase);
  }

  /** An injection succeeds: its checkpoint appears and names a worker's run, the restart exits with
      code 0 and the service recovers. */
  ghost predicate Succeeds(s: Scenario, r: Reply) {
    && (CheckpointPhase(s.phase) ==>
          r.checkpoint.Some? && (s.service == "worker" ==> r.checkpoint.value.paperRunId != ""))
    && r.exitCode == 0 && r.recovered
  }

  lemma RecordsNext(plan: seq<Scenario>, replies: Replies, made: seq<Injection>, s: Scenario)
    requires Records(plan, replies, made) && |made| == |plan|
    ensures Records(plan + [s], replies, made + [Recorded(s, replies(|made|))])
  {
    var plan', made' := plan + [s], made + [Recorded(s, replies(|made|))];
    forall i | 0 <= i < |made'| ensures RecordAt(plan', replies, made', i) {
      if i < |made| {
        assert RecordAt(plan, replies, made, i);
      } else {
        RecordedMeaning(s, replies(i));
      }
    }
  }

  lemma {:induction false} PlayRecords(made: seq<Injection>, done: seq<Scenario>, plan: seq<Scenario>, replies: Replies)
    requires |made| == |done| && Records(done, replies, made)
    ensures var r := Play(made, plan, replies);
            && Records(done + plan, replies, r.injections)
            && (r.Finished? ==> |r.injections| == |done + plan|)
    decreases |plan|
  {
    if plan != [] {
      var s, rest := plan[0], plan[1..];
      var next := made + [Recorded(s, replies(|made|))];
      assert done + plan == done + [s] + rest;
      RecordsNext(done, replies, made, s);
      RecordsLonger(done, plan, replies, made);
      RecordsLonger(done + [s], rest, replies, next);
      if Good(s, replies(|made|)) {
        PlayRecords(next, done + [s], rest, replies);
      }
    } else {
      assert done + [] == done;
    }
  }

  ghost predicate GoodAt(plan: seq<Scenario>, replies: Replies, k: nat, i: nat)
    requires i < |plan|
  {
    Succeeds(plan[i], replies(k + i))
  }

  /** Every injection of the plan succeeds, the first of them being number `k`. */
  ghost predicate AllGood(plan: seq<Scenario>, replies: Replies, k: nat) {
    forall i :: 0 <= i < |plan| ==> GoodAt(plan, replies, k, i)
  }

  lemma AllGoodHead(plan: seq<Scenario>, replies: Replies, k: nat)
    requires plan != []
    ensures AllGood(plan, replies, k) <==> Succeeds(plan[0], replies(k)) && AllGood(plan[1..], replies, k + 1)
  {
    var rest, next := plan[1..], k + 1;
    if AllGood(plan, replies, k) {
      assert GoodAt(plan, replies, k, 0);
      forall i | 0 <= i < |rest| ensures GoodAt(rest, replies, next, i) {
        assert GoodAt(plan, replies, k, i + 1);
      }
    }
    if Succeeds(plan[0], replies(k)) && AllGood(rest, replies, next) {
      forall i | 0 <= i < |plan| ensures GoodAt(plan, replies, k, i) {
        if i > 0 {
          assert GoodAt(rest, replies, next, i - 1);
        }
      }
    }
  }

  lemma {:induction false} PlayFinishes(made: seq<Injection>, plan: seq<Scenario>, replies: Replies)
    ensures Play(made, plan, replies).Finished? <==> AllGood(plan, replies, |made|)
    decreases |plan|
  {
    if plan != [] {
      AllGoodHead(plan, replies, |made|);
      RecordedMeaning(plan[0], replies(|made|));
      if Good(plan[0], replies(|made|)) {
        PlayFinishes(made + [Recorded(plan[0], replies(|made|))], plan[1..], replies);
      }
    }
  }

  function EndDay(r: RunResult, state: DayState): RunResult {
    if Raises(state) then Raised(r.injections) else r
  }

  /** Carry out the plans of the remaining days in turn: a day that raises ends it. */
  function RunFrom(made: seq<Injection>, plans: seq<seq<Scenario>>, days: seq<DayState>, replies: Replies): RunResult
    requires |plans| == |days|
    decreases |days|
  {
    if days == [] then Finished(made)
    else
      var today := EndDay(Play(made, plans[0], replies), days[0]);
      if today.Raised? then today else RunFrom(today.injections, plans[1..], days[1..], replies)
  }

  /** The plan of each day. */
  function Plans(scenarios: seq<Scenario>, days: seq<DayState>): seq<seq<Scenario>> {
    seq(|days|, i requires 0 <= i < |days| => DayInjections(Bucket(scenarios, i + 1), days[i]))
  }

  function RunOf(scenarios: seq<Scenario>, days: seq<DayState>, replies: Replies): RunResult {
    RunFrom([], Plans(scenarios, days), days, replies)
  }

  /** One place of a day. */
  method InjectGroup(made: seq<Injection>, bucket: seq<Scenario>, r: nat, replies: Replies) returns (res: RunResult)
    ensures res == Play(made, Filter(GroupIs(r), bucket), replies)
  {
    var current := made;
    assert bucket[0..] == bucket;
    for i := 0 to |bucket|
      invariant Play(made, Filter(GroupIs(r), bucket), replies) ==
                Play(current, Filter(GroupIs(r), bucket[i..]), replies)
    {
      var s, reply := bucket[i], replies(|current|);
      assert bucket[i..][1..] == bucket[i + 1..];
      if InGroup(r, s.phase) {
        var rest := Filter(GroupIs(r), bucket[i + 1..]);
        assert ([s] + rest)[1..] == rest;
        if Lost(s, reply) {
          return Raised(current);
        }
        current := current + [Recorded(s, reply)];
        if reply.exitCode != 0 || !reply.recovered {
          return Raised(current);
        }
      }
    }
    return Finished(current);
  }

  /** One turn of the daily loop, lines 684-848. */
  method RunDay(made: seq<Injection>, bucket: seq<Scenario>, state: DayState, replies: Replies) returns (res: RunResult)
    ensures res == EndDay(Play(made, DayInjections(bucket, state), replies), state)
  {
    var current := made;
    for r := 0 to Places(state)
      invariant Play(made, FirstPlaces(bucket, r), replies) == Finished(current)
    {
      NextPlace(made, current, bucket, r, replies);
      var done := InjectGroup(current, bucket, r, replies);
      if done.Raised? {
        GroupsRaised(made, bucket, r + 1, Places(state), replies);
        return done;
      }
      current := done.injections;
    }
    return EndDay(Finished(current), state);
  }

  lemma NextPlace(made: seq<Injection>, current: seq<Injection>, bucket: seq<Scenario>, r: nat, replies: Replies)
    requires Play(made, FirstPlaces(bucket, r), replies) == Finished(current)
    ensures Play(made, FirstPlaces(bucket, r + 1), replies) == Play(current, Filter(GroupIs(r), bucket), replies)
  {
    PlaySplit(made, FirstPlaces(bucket, r), Filter(GroupIs(r), bucket), replies);
  }

  /** Once a place has raised, later places of the day are not reached. */
  lemma {:induction false} GroupsRaised(made: seq<Injection>, bucket: seq<Scenario>, n: nat, m: nat, replies: Replies)
    requires n <= m && Play(made, FirstPlaces(bucket, n), replies).Raised?
    ensures Play(made, FirstPlaces(bucket, m), replies) == Play(made, FirstPlaces(bucket, n), replies)
    decreases m
  {
    if n < m {
      GroupsRaised(made, bucket, n, m - 1, replies);
      PlaySplit(made, FirstPlaces(bucket, m - 1), Filter(GroupIs(m - 1), bucket), replies);
    }
  }

  /** The daily loop, lines 683-848. */
  method RunDays(scenarios: seq<Scenario>, days: seq<DayState>, replies: Replies) returns (res: RunResult)
    ensures res == RunOf(scenarios, days, replies)
    ensures Correct(Planned(scenarios, days), Quiet(days), replies, res)
  {
    res := DailyLoop(scenarios, days, replies);
    RunMeaning(scenarios, days, replies);
  }

  method DailyLoop(scenarios: seq<Scenario>, days: seq<DayState>, replies: Replies) returns (res: RunResult)
    ensures res == RunOf(scenarios, days, replies)
  {
    var buckets := ScenariosByDayPhase(scenarios);
    var current: seq<Injection> := [];
    ghost var plans := Plans(scenarios, days);
    assert days[0..] == days && plans[0..] == plans;
    for i := 0 to |days|
      invariant RunFrom(current, plans[i..], days[i..], replies) == RunFrom([], plans, days, replies)
    {
      assert days[i..][1..] == days[i + 1..] && plans[i..][1..] == plans[i + 1..];
      if i + 1 !in buckets {
        NoneThatDay(scenarios, i + 1);
      }
      var done := RunDay(current, if i + 1 in buckets then buckets[i + 1] else [], days[i], replies);
      if done.Raised? {
        return done;
      }
      current := done.injections;
    }
    return Finished(current);
  }

  // ----- What a run recorded -----

  /** A result finishes exactly when no day raised and every planned injection succeeded. */
  ghost predicate EndsRight(plan: seq<Scenario>, quiet: bool, replies: Replies, r: RunResult) {
    r.Finished? <==> quiet && AllGood(plan, replies, 0)
  }

  /** It recorded the plan, or a prefix of it, with the replies met. */
  ghost predicate RecordsRight(plan: seq<Scenario>, replies: Replies, r: RunResult) {
    Records(plan, replies, r.injections) && (r.Finished? ==> |r.injections| == |plan|)
  }

  ghost predicate Correct(plan: seq<Scenario>, quiet: bool, replies: Replies, r: RunResult) {
    EndsRight(plan, quiet, replies, r) && RecordsRight(plan, replies, r)
  }

  /** The plans of the days in turn, up to and including the first that raises. */
  function Flat(plans: seq<seq<Scenario>>, days: seq<DayState>): seq<Scenario>
    requires |plans| == |days|
    decreases |days|
  {
    if days == [] then [] else plans[0] + if Raises(days[0]) then [] else Flat(plans[1..], days[1..])
  }

  lemma QuietHead(days: seq<DayState>)
    requires days != []
    ensures Quiet(days) <==> !Raises(days[0]) && Quiet(days[1..])
  {
    assert forall d :: 0 < d < |days| ==> days[d] == days[1..][d - 1];
  }

  lemma {:induction false} FlatAppend(plans: seq<seq<Scenario>>, days: seq<DayState>,
                                      today: seq<Scenario>, last: DayState)
    requires |plans| == |days|
    ensures Flat(plans + [today], days + [last]) == Flat(plans, days) + if Quiet(days) then today else []
    decreases |days|
  {
    if days == [] {
      assert (days + [last])[1..] == [] && (plans + [today])[1..] == [];
    } else {
      var p, d := plans[1..], days[1..];
      QuietHead(days);
      assert (plans + [today])[1..] == p + [today] && (days + [last])[1..] == d + [last];
      FlatAppend(p, d, today, last);
      assert plans[0] + (Flat(p, d) + today) == plans[0] + Flat(p, d) + today;
    }
  }

  lemma PlansAppend(scenarios: seq<Scenario>, days: seq<DayState>)
    requires days != []
    ensures var n := |days| - 1;
            Plans(scenarios, days) == Plans(scenarios, days[..n]) + [DayOf(scenarios, days)]
  {
  }

  lemma {:induction false} FlatPlans(scenarios: seq<Scenario>, days: seq<DayState>)
    ensures Flat(Plans(scenarios, days), days) == Planned(scenarios, days)
  {
    if days != [] {
      var front, last := days[..|days| - 1], days[|days| - 1];
      var today := DayOf(scenarios, days);
      calc {
        Flat(Plans(scenarios, days), days);
      == { PlansAppend(scenarios, days); assert days == front + [last]; }
        Flat(Plans(scenarios, front) + [today], front + [last]);
      == { FlatAppend(Plans(scenarios, front), front, today, last); }
        Flat(Plans(scenarios, front), front) + if Quiet(front) then today else [];
      == { FlatPlans(scenarios, front); }
        Planned(scenarios, front) + if Quiet(front) then today else [];
      == { PlannedAppend(scenarios, days); }
        Planned(scenarios, days);
      }
    }
  }

  /** The plan of the last day. */
  ghost function DayOf(scenarios: seq<Scenario>, days: seq<DayState>): seq<Scenario>
    requires days != []
  {
    DayInjections(Bucket(scenarios, |days|), days[|days| - 1])
  }

  lemma PlannedAppend(scenarios: seq<Scenario>, days: seq<DayState>)
    requires days != []
    ensures var front := days[..|days| - 1];
            Planned(scenarios, days) == Planned(scenarios, front) + if Quiet(front) then DayOf(scenarios, days) else []
  {
  }

  /** A run over days of which some may raise. */
  function Ended(r: RunResult, days: seq<DayState>): RunResult {
    if Quiet(days) then r else Raised(r.injections)
  }

  lemma {:induction false} RunPlays(made: seq<Injection>, plans: seq<seq<Scenario>>, days: seq<DayState>,
                                    replies: Replies)
    requires |plans| == |days|
    ensures RunFrom(made, plans, days, replies) == Ended(Play(made, Flat(plans, days), replies), days)
    decreases |days|
  {
    if days != [] {
      QuietHead(days);
      var rest := if Raises(days[0]) then [] else Flat(plans[1..], days[1..]);
      PlaySplit(made, plans[0], rest, replies);
      var r := EndDay(Play(made, plans[0], replies), days[0]);
      if r.Finished? {
        RunPlays(r.injections, plans[1..], days[1..], replies);
      }
    }
  }

  /** Every run is its plan carried out until an injection raises; a day that raises makes it raise
      once the plan is done. */
  lemma RunExact(scenarios: seq<Scenario>, days: seq<DayState>, replies: Replies)
    ensures RunOf(scenarios, days, replies) == Ended(Play([], Planned(scenarios, days), replies), days)
  {
    FlatPlans(scenarios, days);
    RunPlays([], Plans(scenarios, days), days, replies);
  }

  /** The loop ends without raising exactly when no day raises and every planned injection
      succeeds. What it recorded is the plan, or a prefix of it, with the replies met. */
  lemma RunMeaning(scenarios: seq<Scenario>, days: seq<DayState>, replies: Replies)
    ensures Correct(Planned(scenarios, days), Quiet(days), replies, RunOf(scenarios, days, replies))
  {
    var plan := Planned(scenarios, days);
    RunExact(scenarios, days, replies);
    PlayFinishes([], plan, replies);
    PlayRecords([], [], plan, replies);
    assert [] + plan == plan;
  }

  lemma RecordsLonger(a: seq<Scenario>, b: seq<Scenario>, replies: Replies, made: seq<Injection>)
    requires Records(a, replies, made)
    ensures Records(a + b, replies, made)
  {
    forall i | 0 <= i < |made| ensures RecordAt(a + b, replies, made, i) {
      assert RecordAt(a, replies, made, i);
    }
  }

  // ----- What level 5 observes of a run -----

  function ScenarioOf(i: Injection): Scenario {
    i.scenario
  }

  /** `observed_scenarios`. */
  function Observed(r: RunResult): seq<Scenario> {
    Map(ScenarioOf, r.injections)
  }

  lemma RecordsObserved(plan: seq<Scenario>, replies: Replies, r: RunResult)
    requires Records(plan, replies, r.injections)
    ensures Observed(r) <= plan && |Observed(r)| == |r.injections|
  {
    forall i | 0 <= i < |r.injections| ensures Observed(r)[i] == plan[i] {
      assert RecordAt(plan, replies, r.injections, i);
      assert Observed(r)[i] == ScenarioOf(r.injections[i]);
    }
  }

  /** Every run observes a prefix of its plan, and all of it if no planned injection fails. */
  lemma RunObserves(scenarios: seq<Scenario>, days: seq<DayState>, replies: Replies)
    ensures Observed(RunOf(scenarios, days, replies)) <= Planned(scenarios, days)
    ensures AllGood(Planned(scenarios, days), replies, 0) ==>
              Observed(RunOf(scenarios, days, replies)) == Planned(scenarios, days)
  {
    var plan := Planned(scenarios, days);
    RunExact(scenarios, days, replies);
    PlayFinishes([], plan, replies);
    PlayRecords([], [], plan, replies);
    assert [] + plan == plan;
    RecordsObserved(plan, replies, RunOf(scenarios, days, replies));
  }

  /** Whatever raises, a run injects the reached scenarios sorted by day, place in the day, phase and
      service, as far as it gets, and all of them if none of these injections fails. */
  lemma InjectionsAreSort(scenarios: seq<Scenario>, days: seq<DayState>, replies: Replies)
    requires forall s :: s in scenarios ==> s.phase in FAULT_PHASES
    ensures var sorted := Sort(ScheduleLeq, Filter(ReachedIn(days), scenarios));
            var seen := Observed(RunOf(scenarios, days, replies));
            seen <= sorted && (AllGood(sorted, replies, 0) ==> seen == sorted)
  {
    PlanIsSort(scenarios, days);
    RunObserves(scenarios, days, replies);
  }

  lemma PrefixCounts<T>(a: seq<T>, b: seq<T>)
    requires a <= b
    ensures multiset(a) <= multiset(b)
  {
    assert b == a + b[|a|..];
  }

  /** No run injects anything more often than it is listed and reached, and a run without a failing
      injection injects everything reached exactly as often as listed. */
  lemma InjectionsConserve(scenarios: seq<Scenario>, days: seq<DayState>, replies: Replies)
    requires forall s :: s in scenarios ==> s.phase in FAULT_PHASES
    ensures var reached := multiset(Filter(ReachedIn(days), scenarios));
            var seen := multiset(Observed(RunOf(scenarios, days, replies)));
            seen <= reached && (AllGood(Planned(scenarios, days), replies, 0) ==> seen == reached)
  {
    PlanConserves(scenarios, days);
    RunObserves(scenarios, days, replies);
    PrefixCounts(Observed(RunOf(scenarios, days, replies)), Planned(scenarios, days));
  }

  /** A finished run recorded as many injections as there are scenarios exactly when every scenario
      was reached. */
  lemma AllInjectedIff(scenarios: seq<Scenario>, days: seq<DayState>, replies: Replies)
    requires forall s :: s in scenarios ==> s.phase in FAULT_PHASES
    requires RunOf(scenarios, days, replies).Finished?
    ensures |RunOf(scenarios, days, replies).injections| == |scenarios| <==>
            forall s :: s in scenarios ==> Reached(days, s)
  {
    RunMeaning(scenarios, days, replies);
    AllPlannedIff(scenarios, days);
  }

  /** The run finishes and level 5's `observed_scenarios == fault_cases` holds. */
  predicate ScopeMatches(scenarios: seq<Scenario>, days: seq<DayState>, replies: Replies) {
    RunOf(scenarios, days, replies).Finished? && Observed(RunOf(scenarios, days, replies)) == scenarios
  }

  /** That is so exactly when every scenario is reached, the list is in schedule order, no day raises
      and every injection succeeds. */
  lemma ScopeMatchesIff(scenarios: seq<Scenario>, days: seq<DayState>, replies: Replies)
    requires forall s :: s in scenarios ==> s.phase in FAULT_PHASES
    ensures ScopeMatches(scenarios, days, replies) <==>
            && (forall s :: s in scenarios ==> Reached(days, s)) && Sorted(ScheduleLeq, scenarios)
            && Quiet(days) && AllGood(scenarios, replies, 0)
  {
    RunMeaning(scenarios, days, replies);
    RunObserves(scenarios, days, replies);
    PlanMatchesIff(scenarios, days);
  }

  // ----- Inputs that are not observed as asked -----

  /** A reached list that is out of order is never observed as listed, however its injections end. */
  lemma OutOfOrder(l: seq<Scenario>, days: seq<DayState>, replies: Replies)
    requires forall s :: s in l ==> s.phase in FAULT_PHASES && Reached(days, s)
    requires !Sorted(ScheduleLeq, l)
    ensures Observed(RunOf(l, days, replies)) != l
    ensures AllGood(Planned(l, days), replies, 0) ==> multiset(Observed(RunOf(l, days, replies))) == multiset(l)
  {
    PlanMatchesIff(l, days);
    RunObserves(l, days, replies);
    AllPlannedIff(l, days);
    AllPlannedMembers(l, days);
  }

  /** Scenarios listed against the calendar are not observed as listed. */
  lemma OutOfOrderScope(replies: Replies)
    ensures var l := [Scenario("api", 2, "before_queue"), Scenario("api", 1, "before_queue")];
            Observed(RunOf(l, [Fresh, Fresh], replies)) != l
  {
    var l := [Scenario("api", 2, "before_queue"), Scenario("api", 1, "before_queue")];
    assert !ScheduleLeq(l[0], l[1]);
    OutOfOrder(l, [Fresh, Fresh], replies);
  }

  /** A day that failed before ends the loop: later scenarios, reached or not, are not injected. */
  lemma RaisingDayHides(replies: Replies)
    ensures var l := [Scenario("api", 2, "before_queue")];
            RunOf(l, [PreviousFailure, Fresh], replies) == Raised([])
  {
    var l, days := [Scenario("api", 2, "before_queue")], [PreviousFailure, Fresh];
    assert Raises(days[..1][0]);
    assert !Reached(days, l[0]);
    PlanIsSort(l, days);
    assert Filter(ReachedIn(days), l[1..]) == [];
    assert Filter(ReachedIn(days), l) == [];
    RunExact(l, days, replies);
    assert Raises(days[0]);
  }

  /** A checkpoint that never appears ends the loop before the injection. */
  lemma MissingCheckpointHides(replies: Replies)
    requires replies(0).checkpoint.None?
    ensures RunOf([Scenario("worker", 1, "ledger")], [Fresh], replies) == Raised([])
  {
    var s := Scenario("worker", 1, "ledger");
    var l, days := [s], [Fresh];
    assert Reached(days, s);
    PlanMatchesIff(l, days);
    RunExact(l, days, replies);
    assert Lost(s, replies(0));
  }

  // ----- From printing to the comparison -----

  lemma {:induction false} ParsedPhases(items: seq<string>)
    ensures var r := ParseItems(ParseItem, items); r.Ok? ==> forall s :: s in r.value ==> s.phase in FAULT_PHASES
  {
    if items != [] {
      ParsedPhases(items[1..]);
    }
  }

  /** Level 5 prints a list; the walk-forward script parses it, runs and finishes; and level 5
      observes the list it asked for. */
  ghost predicate ScopeConfirmed(l: seq<Scenario>, days: seq<DayState>, replies: Replies) {
    var parsed := ParseItems(ParseItem, RawItems(Map(Token, l)));
    && parsed.Ok? && RunOf(parsed.value, days, replies).Finished?
    && Observed(RunOf(parsed.value, days, replies)) == l
  }

  /** For every list level 5 accepts, all days and all replies: level 5 observes the list it asked
      for exactly when every phase is shared by the two scripts, every scenario is reached, the list
      is in schedule order, no day raises and every injection succeeds. */
  lemma EndToEndIff(l: seq<Scenario>, days: seq<DayState>, replies: Replies)
    requires forall s :: s in l ==> Known(s)
    ensures ScopeConfirmed(l, days, replies) <==>
            && (forall s :: s in l ==> SharedPhase(s.phase) && Reached(days, s))
            && Sorted(ScheduleLeq, l) && Quiet(days) && AllGood(l, replies, 0)
  {
    var parsed := ParseItems(ParseItem, RawItems(Map(Token, l)));
    PrintParseRoundTrip(l);
    forall s | s in l ensures s.phase in FAULT_PHASES <==> SharedPhase(s.phase) { NamesMeaning("", s.phase); }
    if ScopeConfirmed(l, days, replies) {
      ParsedPhases(RawItems(Map(Token, l)));
      PlanMembers(parsed.value, days);
      RunObserves(parsed.value, days, replies);
      assert forall s :: s in l ==> s in Planned(parsed.value, days);
    }
    if forall s :: s in l ==> s.phase in FAULT_PHASES {
      ScopeMatchesIff(l, days, replies);
    }
  }

  /** On fresh days, strictly increasing days in range and injections that succeed are enough. */
  lemma StrictDaysEndToEnd(l: seq<Scenario>, days: seq<DayState>, replies: Replies)
    requires forall s :: s in l ==> Known(s) && SharedPhase(s.phase) && s.day <= |days|
    requires forall d :: 0 <= d < |days| ==> days[d] == Fresh
    requires forall i, j :: 0 <= i < j < |l| ==> l[i].day < l[j].day
    requires AllGood(l, replies, 0)
    ensures ScopeConfirmed(l, days, replies)
  {
    forall s | s in l ensures Reached(days, s) {
      assert days[s.day - 1] == Fresh;
    }
    EndToEndIff(l, days, replies);
  }

  // ----- `interruption_recovery_ok`: lines 943-962 -----

  predicate RecoveryOk(injections: seq<Injection>, scenarios: seq<Scenario>) {
    && |injections| == |scenarios|
    && (forall i :: i in injections ==> Recovered(i))
    && (forall i :: i in injections ==> !AtCheckpoint(i.scenario) || i.runStatus in {"queued", "running"})
    && (forall i :: i in injections ==> !Worker(i.scenario) || (i.faultAction == "sigkill_restart" && i.taskId != ""))
  }

  /** A reply that the recovery check accepts for a scenario. */
  ghost predicate Accepted(s: Scenario, r: Reply) {
    CheckpointPhase(s.phase) ==>
      && r.checkpoint.Some? && (r.checkpoint.value.runStatus == "queued" || r.checkpoint.value.runStatus == "running")
      && (s.service == "worker" ==> r.taskId != "")
  }

  /** On a finished loop the recovery check succeeds exactly when every scenario was reached, every
      worker fault is at a checkpoint, and each checkpoint injection met a live run and, for a
      worker, got a recovery task. */
  lemma RecoveryOkIff(scenarios: seq<Scenario>, days: seq<DayState>, replies: Replies)
    requires forall s :: s in scenarios ==> s.phase in FAULT_PHASES
    requires RunOf(scenarios, days, replies).Finished?
    ensures RecoveryOk(RunOf(scenarios, days, replies).injections, scenarios) <==>
            && (forall s :: s in scenarios ==> Reached(days, s))
            && (forall s :: s in scenarios && s.service == "worker" ==> CheckpointPhase(s.phase))
            && (forall i :: 0 <= i < |Planned(scenarios, days)| ==> Accepted(Planned(scenarios, days)[i], replies(i)))
  {
    var plan, made := Planned(scenarios, days), RunOf(scenarios, days, replies).injections;
    RunMeaning(scenarios, days, replies);
    AllPlannedIff(scenarios, days);
    forall i | 0 <= i < |plan| ensures Succeeds(plan[i], replies(i)) { assert GoodAt(plan, replies, 0, i); }
    RecordsAccepted(plan, replies, made);
    if |plan| == |scenarios| {
      AllPlannedMembers(scenarios, days);
    }
  }

  /** One recorded injection passes the check. */
  predicate RecoveredWell(i: Injection) {
    && Recovered(i)
    && (!AtCheckpoint(i.scenario) || i.runStatus in {"queued", "running"})
    && (!Worker(i.scenario) || (i.faultAction == "sigkill_restart" && i.taskId != ""))
  }

  lemma WellMeaning(i: Injection, s: Scenario, r: Reply)
    requires RecordsReply(i, s, r) && Succeeds(s, r)
    ensures RecoveredWell(i) <==> Accepted(s, r) && (s.service == "worker" ==> CheckpointPhase(s.phase))
  {
    RecordedMeaning(s, r);
  }

  lemma RecordsAccepted(plan: seq<Scenario>, replies: Replies, made: seq<Injection>)
    requires Records(plan, replies, made) && |made| == |plan|
    requires forall i :: 0 <= i < |plan| ==> Succeeds(plan[i], replies(i))
    ensures RecoveryOk(made, plan) <==>
            && (forall s :: s in plan && s.service == "worker" ==> CheckpointPhase(s.phase))
            && (forall i :: 0 <= i < |plan| ==> Accepted(plan[i], replies(i)))
  {
    assert RecoveryOk(made, plan) <==> forall i :: i in made ==> RecoveredWell(i);
    forall i | 0 <= i < |plan|
      ensures made[i] in made && plan[i] in plan
      ensures RecoveredWell(made[i]) <==>
              Accepted(plan[i], replies(i)) && (plan[i].service == "worker" ==> CheckpointPhase(plan[i].phase))
    {
      assert RecordAt(plan, replies, made, i);
      WellMeaning(made[i], plan[i], replies(i));
    }
  }

  /** So a worker fault outside the checkpoint phases always fails the check. */
  lemma WorkerNeedsCheckpoint(scenarios: seq<Scenario>, days: seq<DayState>, replies: Replies, s: Scenario)
    requires forall x :: x in scenarios ==> x.phase in FAULT_PHASES
    requires s in scenarios && s.service == "worker" && !CheckpointPhase(s.phase)
    requires RunOf(scenarios, days, replies).Finished?
    ensures !RecoveryOk(RunOf(scenarios, days, replies).injections, scenarios)
  {
    RecoveryOkIff(scenarios, days, replies);
  }
}

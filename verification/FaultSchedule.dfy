/** Which faults the walk-forward script plans to inject, and in which order.
    scripts/run_lean_paper_walkforward_acceptance.py:326-334, 683-848. */
module FaultSchedule {
  import opened Sorting
  import opened FaultScenarios

  // ----- Buckets: `_scenarios_by_day_phase` -----

  predicate ByPhaseService(a: Scenario, b: Scenario) {
    if a.phase == b.phase then StringLeq(a.service, b.service) else StringLeq(a.phase, b.phase)
  }

  function DayIs(day: int): Scenario -> bool {
    (s: Scenario) => s.day == day
  }

  /** The bucket of a day: its scenarios sorted by phase and service. */
  function Bucket(scenarios: seq<Scenario>, day: int): seq<Scenario> {
    Sort(ByPhaseService, Filter(DayIs(day), scenarios))
  }

  method ScenariosByDayPhase(scenarios: seq<Scenario>) returns (buckets: map<int, seq<Scenario>>)
    ensures forall d :: d in buckets <==> exists s :: s in scenarios && s.day == d
    ensures forall d :: d in buckets ==> buckets[d] == Bucket(scenarios, d)
  {
    var raw: map<int, seq<Scenario>> := map[];
    for i := 0 to |scenarios|
      invariant forall d :: d in raw <==> exists s :: s in scenarios[..i] && s.day == d
      invariant forall d :: d in raw ==> raw[d] == Filter(DayIs(d), scenarios[..i])
    {
      var item := scenarios[i];
      assert scenarios[..i + 1] == scenarios[..i] + [item];
      forall d ensures Filter(DayIs(d), scenarios[..i + 1]) ==
                       Filter(DayIs(d), scenarios[..i]) + (if item.day == d then [item] else [])
      {
        FilterSplits(DayIs(d), scenarios[..i], [item]);
        assert [item][1..] == [];
      }
      if item.day !in raw {
        NoneThatDay(scenarios[..i], item.day);
      }
      raw := raw[item.day := (if item.day in raw then raw[item.day] else []) + [item]];
    }
    assert scenarios[..|scenarios|] == scenarios;
    buckets := map d | d in raw :: Sort(ByPhaseService, raw[d]);
  }

  lemma NoneThatDay(scenarios: seq<Scenario>, day: int)
    requires forall s :: s in scenarios ==> s.day != day
    ensures Filter(DayIs(day), scenarios) == []
  {
    FilterMembers(DayIs(day), scenarios);
    if Filter(DayIs(day), scenarios) != [] {
      assert Filter(DayIs(day), scenarios)[0] in scenarios;
    }
  }

  // ----- One day -----

  /** What the loop meets on a day: the state of the session's run for it, and the requests that
      fail, each of which raises. */
  datatype DayState =
    | Fresh | AlreadySuccessful | InFlight
    | RunsUnavailable | PreviousFailure | InFlightFails | RunRefused | RunFails

  /** How many of the five places of a day the loop gets to. */
  function Places(d: DayState): nat {
    match d
    case Fresh => 5
    case RunFails => 4
    case RunRefused => 2
    case _ => 1
  }

  predicate Raises(d: DayState) {
    d != Fresh && d != AlreadySuccessful && d != InFlight
  }

  /** The five places of a day at which faults are injected, by phase. */
  predicate InGroup(r: nat, phase: string) {
    match r
    case 0 => phase == "before_queue"
    case 1 => phase == "before_wait"
    case 2 => phase == "during_wait"
    case 3 => phase in CHECKPOINT_PHASES
    case _ => phase in {"after_wait", "post_run"}
  }

  function GroupIs(r: nat): Scenario -> bool {
    (s: Scenario) => InGroup(r, s.phase)
  }

  function Rank(phase: string): nat {
    if phase == "before_queue" then 0 else if phase == "before_wait" then 1 else if phase == "during_wait" then 2
    else if phase in CHECKPOINT_PHASES then 3 else 4
  }

  lemma GroupIsRank(phase: string, r: nat)
    requires phase in FAULT_PHASES && r < 5
    ensures InGroup(r, phase) <==> Rank(phase) == r
  {
  }

  /** The faults of the first `n` places of a day, place by place. */
  function FirstPlaces(b: seq<Scenario>, n: nat): seq<Scenario> {
    if n == 0 then [] else FirstPlaces(b, n - 1) + Filter(GroupIs(n - 1), b)
  }

  /** A day that already ran, or is running, only sees its `before_queue` faults. */
  function DayInjections(b: seq<Scenario>, state: DayState): seq<Scenario> {
    FirstPlaces(b, Places(state))
  }

  /** No day raises: each is fresh, already successful or still running. */
  predicate Quiet(days: seq<DayState>) {
    forall d :: 0 <= d < |days| ==> days[d] == Fresh || days[d] == AlreadySuccessful || days[d] == InFlight
  }

  /** The plan: what the loop injects if every injection succeeds. A day that raises is the last. */
  function Planned(scenarios: seq<Scenario>, days: seq<DayState>): seq<Scenario> {
    if days == [] then []
    else
      var front, last := days[..|days| - 1], days[|days| - 1];
      Planned(scenarios, front) + if Quiet(front) then DayInjections(Bucket(scenarios, |days|), last) else []
  }

  // ----- The order of the plan -----

  /** By day, then place in the day, then phase name, then service. */
  predicate ScheduleLeq(a: Scenario, b: Scenario) {
    if a.day != b.day then a.day < b.day
    else if Rank(a.phase) != Rank(b.phase) then Rank(a.phase) < Rank(b.phase)
    else if a.phase != b.phase then StringLeq(a.phase, b.phase)
    else StringLeq(a.service, b.service)
  }

  lemma Orders()
    ensures Preorder(ByPhaseService) && Preorder(ScheduleLeq) && Antisymmetric(ScheduleLeq)
  {
    StringOrder();
  }

  /** A day gets to the injections of a phase: all of them on a fresh day; on a day whose run is
      refused only those before the wait, and on one whose run fails those up to it; on any other
      day only those before the queue. */
  ghost predicate DayGets(d: DayState, phase: string) {
    || d == Fresh || phase == "before_queue"
    || (d == RunRefused && phase == "before_wait")
    || (d == RunFails && (phase == "before_wait" || phase == "during_wait" || CheckpointPhase(phase)))
  }

  lemma PlacesMeaning(d: DayState, phase: string)
    requires phase in FAULT_PHASES
    ensures Rank(phase) < Places(d) <==> DayGets(d, phase)
  {
    NamesMeaning("", phase);
  }

  /** The plan reaches a scenario: its day is in range, no earlier day raises, and the day gets to
      the scenario's phase. */
  ghost predicate Reached(days: seq<DayState>, s: Scenario) {
    1 <= s.day <= |days| && Quiet(days[..s.day - 1]) && DayGets(days[s.day - 1], s.phase)
  }

  lemma {:induction false} GroupsCount(b: seq<Scenario>, n: nat, x: Scenario)
    requires n <= 5 && x.phase in FAULT_PHASES
    ensures multiset(FirstPlaces(b, n))[x] == if Rank(x.phase) < n then multiset(b)[x] else 0
  {
    if n > 0 {
      GroupsCount(b, n - 1, x);
      FilterCounts(GroupIs(n - 1), b, x);
      GroupIsRank(x.phase, n - 1);
    }
  }

  lemma BucketCount(scenarios: seq<Scenario>, day: int, x: Scenario)
    ensures multiset(Bucket(scenarios, day))[x] == if x.day == day then multiset(scenarios)[x] else 0
  {
    SortPermutes(ByPhaseService, Filter(DayIs(day), scenarios));
    FilterCounts(DayIs(day), scenarios, x);
  }

  lemma DayCount(scenarios: seq<Scenario>, day: int, state: DayState, x: Scenario)
    requires x.phase in FAULT_PHASES
    ensures multiset(DayInjections(Bucket(scenarios, day), state))[x] ==
            if x.day == day && DayGets(state, x.phase) then multiset(scenarios)[x] else 0
  {
    PlacesMeaning(state, x.phase);
    BucketCount(scenarios, day, x);
    GroupsCount(Bucket(scenarios, day), Places(state), x);
  }

  lemma CountStep(earlier: seq<Scenario>, today: seq<Scenario>, days: seq<DayState>, x: Scenario, count: nat)
    requires days != []
    requires var front, last := days[..|days| - 1], days[|days| - 1];
             && multiset(earlier)[x] == (if Reached(front, x) then count else 0)
             && multiset(today)[x] ==
                  if Quiet(front) && x.day == |days| && DayGets(last, x.phase) then count else 0
    ensures multiset(earlier + today)[x] == if Reached(days, x) then count else 0
  {
    var front := days[..|days| - 1];
    if 1 <= x.day < |days| {
      assert front[x.day - 1] == days[x.day - 1] && front[..x.day - 1] == days[..x.day - 1];
    }
  }

  /** Nothing is lost, repeated or invented: each reached scenario is planned as often as listed. */
  lemma {:induction false} PlanCount(scenarios: seq<Scenario>, days: seq<DayState>, x: Scenario)
    requires x.phase in FAULT_PHASES
    ensures multiset(Planned(scenarios, days))[x] == if Reached(days, x) then multiset(scenarios)[x] else 0
  {
    if days != [] {
      var n := |days|;
      var front := days[..n - 1];
      var today := if Quiet(front) then DayInjections(Bucket(scenarios, n), days[n - 1]) else [];
      PlanCount(scenarios, front, x);
      DayCount(scenarios, n, days[n - 1], x);
      CountStep(Planned(scenarios, front), today, days, x, multiset(scenarios)[x]);
    }
  }

  lemma {:induction false} GroupsMembers(b: seq<Scenario>, n: nat)
    ensures forall x :: x in FirstPlaces(b, n) ==> x in b
  {
    if n > 0 {
      GroupsMembers(b, n - 1);
      FilterMembers(GroupIs(n - 1), b);
    }
  }

  lemma {:induction false} PlanMembers(scenarios: seq<Scenario>, days: seq<DayState>)
    ensures forall x :: x in Planned(scenarios, days) ==> x in scenarios && 1 <= x.day <= |days|
  {
    if days != [] {
      var n := |days|;
      PlanMembers(scenarios, days[..n - 1]);
      var b := Bucket(scenarios, n);
      GroupsMembers(b, Places(days[n - 1]));
      SortPermutes(ByPhaseService, Filter(DayIs(n), scenarios));
      FilterMembers(DayIs(n), scenarios);
      forall x | x in b ensures x in scenarios && x.day == n {
        SameMembers(b, Filter(DayIs(n), scenarios), x);
      }
    }
  }

  ghost function ReachedIn(days: seq<DayState>): Scenario -> bool {
    (s: Scenario) => Reached(days, s)
  }

  /** The plan is the reached scenarios, as multisets. */
  lemma PlanConserves(scenarios: seq<Scenario>, days: seq<DayState>)
    requires forall s :: s in scenarios ==> s.phase in FAULT_PHASES
    ensures multiset(Planned(scenarios, days)) == multiset(Filter(ReachedIn(days), scenarios))
  {
    PlanMembers(scenarios, days);
    forall x ensures multiset(Planned(scenarios, days))[x] == multiset(Filter(ReachedIn(days), scenarios))[x] {
      FilterCounts(ReachedIn(days), scenarios, x);
      if x in scenarios {
        PlanCount(scenarios, days, x);
      } else {
        assert x !in multiset(Planned(scenarios, days));
        assert x !in multiset(scenarios);
      }
    }
  }

  /** As many faults are planned as there are scenarios exactly when every scenario is reached. */
  lemma AllPlannedIff(scenarios: seq<Scenario>, days: seq<DayState>)
    requires forall s :: s in scenarios ==> s.phase in FAULT_PHASES
    ensures |Planned(scenarios, days)| == |scenarios| <==> forall s :: s in scenarios ==> Reached(days, s)
  {
    PlanConserves(scenarios, days);
    var kept := Filter(ReachedIn(days), scenarios);
    assert |multiset(Planned(scenarios, days))| == |multiset(kept)|;
    FilterAll(ReachedIn(days), scenarios);
  }

  lemma AllPlannedMembers(scenarios: seq<Scenario>, days: seq<DayState>)
    requires forall s :: s in scenarios ==> s.phase in FAULT_PHASES
    requires |Planned(scenarios, days)| == |scenarios|
    ensures multiset(Planned(scenarios, days)) == multiset(scenarios)
    ensures forall s :: s in Planned(scenarios, days) <==> s in scenarios
  {
    AllPlannedIff(scenarios, days);
    PlanConserves(scenarios, days);
    FilterAll(ReachedIn(days), scenarios);
    forall s ensures s in Planned(scenarios, days) <==> s in scenarios {
      SameMembers(Planned(scenarios, days), scenarios, s);
    }
  }

  lemma SortedConcat(a: seq<Scenario>, b: seq<Scenario>)
    requires Sorted(ScheduleLeq, a) && Sorted(ScheduleLeq, b)
    requires forall x, y :: x in a && y in b ==> ScheduleLeq(x, y)
    ensures Sorted(ScheduleLeq, a + b)
  {
    var s := a + b;
    forall i, j | 0 <= i < j < |s| ensures ScheduleLeq(s[i], s[j]) {
      if i < |a| <= j {
        assert s[i] in a && s[j] in b;
      }
    }
  }

  /** One group of one day is sorted: stability of the bucket's sort. */
  lemma GroupSorted(l: seq<Scenario>, day: int, r: nat)
    requires r < 5 && forall x :: x in l ==> x.day == day && x.phase in FAULT_PHASES
    ensures Sorted(ScheduleLeq, Filter(GroupIs(r), Sort(ByPhaseService, l)))
    ensures forall x :: x in Filter(GroupIs(r), Sort(ByPhaseService, l)) ==> x in l && Rank(x.phase) == r
  {
    Orders();
    FilterSort(ByPhaseService, GroupIs(r), l);
    var g := Sort(ByPhaseService, Filter(GroupIs(r), l));
    SortSorts(ByPhaseService, Filter(GroupIs(r), l));
    SortPermutes(ByPhaseService, Filter(GroupIs(r), l));
    FilterMembers(GroupIs(r), l);
    forall x | x in g ensures x in l && Rank(x.phase) == r {
      SameMembers(g, Filter(GroupIs(r), l), x);
      GroupIsRank(x.phase, r);
    }
    forall i, j | 0 <= i < j < |g| ensures ScheduleLeq(g[i], g[j]) {
      assert g[i] in g && g[j] in g;
    }
  }

  lemma {:induction false} GroupsSorted(l: seq<Scenario>, day: int, n: nat)
    requires n <= 5 && forall x :: x in l ==> x.day == day && x.phase in FAULT_PHASES
    ensures Sorted(ScheduleLeq, FirstPlaces(Sort(ByPhaseService, l), n))
    ensures forall x :: x in FirstPlaces(Sort(ByPhaseService, l), n) ==> x in l && Rank(x.phase) < n
  {
    if n > 0 {
      GroupsSorted(l, day, n - 1);
      GroupSorted(l, day, n - 1);
      SortedConcat(FirstPlaces(Sort(ByPhaseService, l), n - 1), Filter(GroupIs(n - 1), Sort(ByPhaseService, l)));
    }
  }

  lemma {:induction false} PlanSorted(scenarios: seq<Scenario>, days: seq<DayState>)
    requires forall s :: s in scenarios ==> s.phase in FAULT_PHASES
    ensures Sorted(ScheduleLeq, Planned(scenarios, days))
  {
    if days != [] {
      var n := |days|;
      PlanSorted(scenarios, days[..n - 1]);
      PlanMembers(scenarios, days[..n - 1]);
      FilterMembers(DayIs(n), scenarios);
      var l := Filter(DayIs(n), scenarios);
      GroupsSorted(l, n, Places(days[n - 1]));
      SortedConcat(Planned(scenarios, days[..n - 1]), DayInjections(Bucket(scenarios, n), days[n - 1]));
    }
  }

  /** For every list of scenarios and all days the plan is exactly the reached scenarios, sorted by
      day, place in the day, phase and service. */
  lemma PlanIsSort(scenarios: seq<Scenario>, days: seq<DayState>)
    requires forall s :: s in scenarios ==> s.phase in FAULT_PHASES
    ensures Planned(scenarios, days) == Sort(ScheduleLeq, Filter(ReachedIn(days), scenarios))
  {
    Orders();
    var kept := Filter(ReachedIn(days), scenarios);
    PlanSorted(scenarios, days);
    PlanConserves(scenarios, days);
    SortSorts(ScheduleLeq, kept);
    SortPermutes(ScheduleLeq, kept);
    SortedUnique(ScheduleLeq, Planned(scenarios, days), Sort(ScheduleLeq, kept));
  }

  /** The plan is the list itself exactly when every scenario is reached and the list is already in
      schedule order. */
  lemma PlanMatchesIff(scenarios: seq<Scenario>, days: seq<DayState>)
    requires forall s :: s in scenarios ==> s.phase in FAULT_PHASES
    ensures Planned(scenarios, days) == scenarios <==>
            (forall s :: s in scenarios ==> Reached(days, s)) && Sorted(ScheduleLeq, scenarios)
  {
    Orders();
    AllPlannedIff(scenarios, days);
    PlanIsSort(scenarios, days);
    FilterAll(ReachedIn(days), scenarios);
    if forall s :: s in scenarios ==> Reached(days, s) {
      SortFixed(ScheduleLeq, scenarios);
    }
  }
}

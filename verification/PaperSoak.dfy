/** The Paper soak observer and its hash chain, scripts/paper_soak_observer.py:113-264, and the
    campaign's readiness test, scripts/run_post_migration_certification_campaign.py:408-424.
    Timestamps are seconds; the digest of a sample body is a parameter. */
module PaperSoak {
  import opened Wrappers
  import opened Sorting
  import opened Text

  /** A sample without its own digest. `health` stands for the recorded service readings. */
  datatype Body = Body(
    observedAt: int,
    localDate: string,
    releaseId: string,
    gitSha: string,
    health: string,
    projectionPassed: bool,
    previous: Option<string>)

  datatype Sample = Sample(body: Body, sha: Option<string>)

  datatype SoakState = SoakState(
    startedAt: int,
    releaseId: string,
    gitSha: string,
    dataReleaseId: string,
    manifestSha: string,
    accountIds: seq<string>,
    samples: seq<Sample>)

  /** What one `sample` call sees: the clock and the running service. */
  datatype Observation = Observation(
    at: int, localDate: string, releaseId: string, gitSha: string, health: string, projectionPassed: bool)

  type Digest = Body -> string

  /** `str(item.get("sampleSha256") or "")`. */
  function Recorded(s: Sample): string {
    if s.sha.Some? then s.sha.value else ""
  }

  /** `_release_identity` accepts only versioned releases. */
  function Unversioned(releaseId: string, gitSha: string): Option<string> {
    if releaseId in {"", "local-unversioned", "unknown"} then Some("versioned_release_id_required")
    else if gitSha in {"", "unknown"} then Some("versioned_release_git_sha_required")
    else None
  }

  predicate ValidSha256(v: string) {
    |v| == 64 && forall i :: 0 <= i < |v| ==> '0' <= v[i] <= '9' || 'a' <= v[i] <= 'f'
  }

  // ----- The chain -----

  ghost predicate LinkOk(digest: Digest, samples: seq<Sample>, i: nat)
    requires i < |samples|
  {
    && samples[i].body.previous == (if i == 0 then None else Some(Own(samples[i - 1])))
    && digest(samples[i].body) == Own(samples[i])
  }

  /** The digest that a sample carries; a sample without one carries the empty text. */
  ghost function Own(s: Sample): string {
    match s.sha
    case Some(v) => v
    case None => ""
  }

  /** Every sample links to its predecessor's digest and carries its own. */
  ghost predicate Verifies(digest: Digest, samples: seq<Sample>) {
    forall i :: 0 <= i < |samples| ==> LinkOk(digest, samples, i)
  }

  /** The loop at lines 223-231. */
  method CheckChain(digest: Digest, samples: seq<Sample>) returns (valid: bool)
    ensures valid <==> Verifies(digest, samples)
  {
    var previous: Option<string> := None;
    for i := 0 to |samples|
      invariant previous == if i == 0 then None else Some(Recorded(samples[i - 1]))
      invariant forall k :: 0 <= k < i ==> LinkOk(digest, samples, k)
    {
      var recorded := Recorded(samples[i]);
      if samples[i].body.previous != previous || digest(samples[i].body) != recorded {
        assert !LinkOk(digest, samples, i);
        return false;
      }
      previous := Some(recorded);
    }
    return true;
  }

  ghost predicate SameContent(a: seq<Sample>, b: seq<Sample>) {
    |a| == |b| && forall i :: 0 <= i < |a| ==> a[i].body == b[i].body && Own(a[i]) == Own(b[i])
  }

  lemma PrefixVerifies(digest: Digest, samples: seq<Sample>, n: nat)
    requires Verifies(digest, samples) && n <= |samples|
    ensures Verifies(digest, samples[..n])
  {
    forall i | 0 <= i < n ensures LinkOk(digest, samples[..n], i) {
      assert LinkOk(digest, samples, i);
    }
  }

  /** With a collision-free digest the head of a verifying chain fixes the whole history, so
      rewriting, inserting or removing samples under an unchanged head digest is detected. */
  lemma {:induction false} HeadFixesHistory(digest: Digest, a: seq<Sample>, b: seq<Sample>)
    requires Injective(digest) && Verifies(digest, a) && Verifies(digest, b)
    requires a != [] && b != [] && Own(a[|a| - 1]) == Own(b[|b| - 1])
    ensures SameContent(a, b)
    decreases |a|
  {
    var m, n := |a| - 1, |b| - 1;
    assert LinkOk(digest, a, m) && LinkOk(digest, b, n);
    assert a[m].body == b[n].body;
    if m > 0 && n > 0 {
      PrefixVerifies(digest, a, m);
      PrefixVerifies(digest, b, n);
      HeadFixesHistory(digest, a[..m], b[..n]);
      assert forall i :: 0 <= i < m ==> a[..m][i] == a[i] && b[..n][i] == b[i];
    }
  }

  // ----- One observation -----

  /** Lines 168-189. */
  function Observe(digest: Digest, s: SoakState, o: Observation): SoakState {
    var previous := if s.samples == [] then None else s.samples[|s.samples| - 1].sha;
    var body := Body(o.at, o.localDate, o.releaseId, o.gitSha, o.health, o.projectionPassed, previous);
    s.(samples := s.samples + [Sample(body, Some(digest(body)))])
  }

  ghost predicate HexDigit(c: char) {
    || c == '0' || c == '1' || c == '2' || c == '3' || c == '4' || c == '5' || c == '6' || c == '7'
    || c == '8' || c == '9' || c == 'a' || c == 'b' || c == 'c' || c == 'd' || c == 'e' || c == 'f'
  }

  /** A lower-case hexadecimal text of 64 digits. */
  ghost predicate Hex64(v: string) {
    |v| == 64 && forall i :: 0 <= i < |v| ==> HexDigit(v[i])
  }

  lemma HexDigitMeaning(c: char)
    ensures HexDigit(c) <==> '0' <= c <= '9' || 'a' <= c <= 'f'
  {
    var n := c as int;
    assert '0' as int == 48 && 'a' as int == 97;
  }

  lemma Sha256Meaning(v: string)
    ensures ValidSha256(v) <==> Hex64(v)
  {
    forall i | 0 <= i < |v| ensures HexDigit(v[i]) <==> '0' <= v[i] <= '9' || 'a' <= v[i] <= 'f' {
      HexDigitMeaning(v[i]);
    }
  }

  /** A release that was built and named for deployment. */
  ghost predicate Named(o: Observation) {
    o.releaseId !in {"", "local-unversioned", "unknown"} && o.gitSha !in {"", "unknown"}
  }

  ghost predicate UnnamedRelease(o: Observation) {
    o.releaseId == "" || o.releaseId == "local-unversioned" || o.releaseId == "unknown"
  }

  /** Why an observation may not start a soak: the first reason in this order. */
  ghost function StartRefusal(postgres: bool, present: bool, replace: bool, accounts: seq<string>,
                              dataRelease: string, manifest: string, o: Observation): string {
    if !postgres then "postgresql_required"
    else if present && !replace then "paper_soak_state_already_exists"
    else if forall a :: a in accounts ==> Strip(a) == "" then "at_least_one_paper_account_required"
    else if Strip(dataRelease) == "" then "data_release_id_required"
    else if !Hex64(Lower(Strip(manifest))) then "data_release_manifest_sha256_invalid"
    else if UnnamedRelease(o) then "versioned_release_id_required"
    else "versioned_release_git_sha_required"
  }

  /** Why a sample is refused: the first reason in this order. */
  ghost function SampleRefusal(postgres: bool, file: Option<SoakState>, o: Observation): string {
    if !postgres then "postgresql_required"
    else if file.None? then "paper_soak_state_invalid"
    else if file.value.accountIds == [] then "paper_soak_accounts_missing"
    else if UnnamedRelease(o) then "versioned_release_id_required"
    else if o.gitSha == "" || o.gitSha == "unknown" then "versioned_release_git_sha_required"
    else "paper_soak_release_identity_changed"
  }

  predicate SameRelease(s: SoakState, o: Observation) {
    o.releaseId == s.releaseId && o.gitSha == s.gitSha
  }

  /** What the observer's own state satisfies. */
  ghost predicate Honest(digest: Digest, s: SoakState) {
    && Verifies(digest, s.samples)
    && (forall i :: 0 <= i < |s.samples| ==>
          s.samples[i].sha.Some? && s.samples[i].body.releaseId == s.releaseId && s.samples[i].body.gitSha == s.gitSha)
  }

  lemma ObserveHonest(digest: Digest, s: SoakState, o: Observation)
    requires Honest(digest, s) && SameRelease(s, o)
    ensures Honest(digest, Observe(digest, s, o))
  {
    var t := Observe(digest, s, o);
    forall i | 0 <= i < |t.samples| ensures LinkOk(digest, t.samples, i) {
      if i < |s.samples| {
        assert LinkOk(digest, s.samples, i);
      }
    }
  }

  /** A sample tells what was observed, field by field. */
  ghost predicate Tells(s: Sample, o: Observation) {
    && s.body.observedAt == o.at && s.body.localDate == o.localDate
    && s.body.releaseId == o.releaseId && s.body.gitSha == o.gitSha
    && s.body.health == o.health && s.body.projectionPassed == o.projectionPassed
  }

  class Observer {
    const digest: Digest
    var file: Option<SoakState>

    constructor (digest: Digest, file: Option<SoakState>)
      ensures this.digest == digest && this.file == file
    {
      this.digest := digest;
      this.file := file;
    }

    /** `start`: an existing state is only replaced on request; the new one is empty and honest. */
    method Start(postgres: bool, replace: bool, accounts: seq<string>, dataRelease: string,
                 manifest: string, o: Observation) returns (r: Result<SoakState>)
      modifies this
      ensures r.Ok? <==> postgres && (old(file).None? || replace) &&
                         (exists a :: a in accounts && Strip(a) != "") && Strip(dataRelease) != "" &&
                         Hex64(Lower(Strip(manifest))) && Named(o)
      ensures r.Ok? ==> file == Some(r.value) && Honest(digest, r.value) && r.value.samples == [] &&
                        r.value.releaseId == o.releaseId && r.value.gitSha == o.gitSha && r.value.startedAt == o.at
      ensures r.Ok? ==> r.value.dataReleaseId == Strip(dataRelease) && r.value.manifestSha == Lower(Strip(manifest))
      ensures r.Ok? ==> FirstOccurrences(r.value.accountIds, NonBlank(accounts))
      ensures r.Error? ==> file == old(file)
      ensures r.Error? ==>
                r.code == StartRefusal(postgres, old(file).Some?, replace, accounts, dataRelease, manifest, o)
    {
      if !postgres {
        return Error("postgresql_required");
      }
      if file.Some? && !replace {
        return Error("paper_soak_state_already_exists");
      }
      var accountIds := Unique(NonBlank(accounts));
      UniqueMeaning(NonBlank(accounts));
      NonBlankExists(accounts);
      if accountIds == [] {
        return Error("at_least_one_paper_account_required");
      }
      if Strip(dataRelease) == "" {
        return Error("data_release_id_required");
      }
      var manifestSha := Lower(Strip(manifest));
      Sha256Meaning(manifestSha);
      if !ValidSha256(manifestSha) {
        return Error("data_release_manifest_sha256_invalid");
      }
      var unversioned := Unversioned(o.releaseId, o.gitSha);
      if unversioned.Some? {
        return Error(unversioned.value);
      }
      var state := SoakState(o.at, o.releaseId, o.gitSha, Strip(dataRelease), manifestSha, accountIds, []);
      file := Some(state);
      return Ok(state);
    }

    /** `sample`: refuses a changed release; otherwise appends one linked sample. */
    method TakeSample(postgres: bool, o: Observation) returns (r: Result<Sample>)
      modifies this
      ensures r.Ok? <==> postgres && old(file).Some? && old(file).value.accountIds != [] &&
                         Named(o) && o.releaseId == old(file).value.releaseId && o.gitSha == old(file).value.gitSha
      ensures r.Ok? ==> file == Some(old(file).value.(samples := old(file).value.samples + [r.value]))
      ensures r.Ok? ==> Tells(r.value, o) && r.value.sha == Some(digest(r.value.body)) &&
                        r.value.body.previous ==
                          if old(file).value.samples == [] then None
                          else old(file).value.samples[|old(file).value.samples| - 1].sha
      ensures r.Ok? ==> file == Some(Observe(digest, old(file).value, o))
      ensures r.Ok? && Honest(digest, old(file).value) ==> Honest(digest, file.value)
      ensures r.Error? ==> file == old(file) && r.code == SampleRefusal(postgres, file, o)
    {
      if !postgres {
        return Error("postgresql_required");
      }
      if file.None? {
        return Error("paper_soak_state_invalid");
      }
      var state := file.value;
      if state.accountIds == [] {
        return Error("paper_soak_accounts_missing");
      }
      var unversioned := Unversioned(o.releaseId, o.gitSha);
      if unversioned.Some? {
        return Error(unversioned.value);
      }
      if !SameRelease(state, o) {
        return Error("paper_soak_release_identity_changed");
      }
      var previous: Option<string> := None;
      var samples := state.samples;
      if samples != [] {
        previous := samples[|samples| - 1].sha;
      }
      var body := Body(o.at, o.localDate, o.releaseId, o.gitSha, o.health, o.projectionPassed, previous);
      var added := Sample(body, Some(digest(body)));
      samples := samples + [added];
      file := Some(state.(samples := samples));
      if Honest(digest, old(file).value) {
        ObserveHonest(digest, old(file).value, o);
      }
      return Ok(added);
    }
  }

  /** Any number of accepted observations. */
  function ObserveAll(digest: Digest, s: SoakState, observations: seq<Observation>): SoakState {
    if observations == [] then s
    else Observe(digest, ObserveAll(digest, s, observations[..|observations| - 1]), observations[|observations| - 1])
  }

  /** After a start and any number of samples of the same release, the chain check succeeds, no
      sample is lost and every sample carries the starting release identity. */
  lemma {:induction false} EveryRunVerifies(digest: Digest, s: SoakState, observations: seq<Observation>)
    requires s.samples == [] && forall o :: o in observations ==> SameRelease(s, o)
    ensures var t := ObserveAll(digest, s, observations);
            && Honest(digest, t) && t == s.(samples := t.samples) && |t.samples| == |observations|
            && forall i :: 0 <= i < |observations| ==> Tells(t.samples[i], observations[i])
  {
    if observations != [] {
      var n := |observations| - 1;
      assert forall o :: o in observations[..n] ==> o in observations;
      EveryRunVerifies(digest, s, observations[..n]);
      assert observations[n] in observations;
      ObserveHonest(digest, ObserveAll(digest, s, observations[..n]), observations[n]);
      assert forall i :: 0 <= i < n ==> observations[..n][i] == observations[i];
    }
  }

  // ----- Finalization -----

  datatype FaultPayload = FaultPayload(passed: bool, scenarios: map<string, bool>)

  const RECOVERY_SCENARIOS: seq<string> := ["database_short_disconnect", "rabbitmq_outage", "worker_crash"]

  predicate RecoveryPassed(fault: FaultPayload) {
    fault.passed && forall n :: n in RECOVERY_SCENARIOS ==> n in fault.scenarios && fault.scenarios[n]
  }

  function Dates(samples: seq<Sample>): set<string> {
    set s | s in samples && s.body.localDate != "" :: s.body.localDate
  }

  /** `max(0.0, (completed - started).total_seconds() / 86400.0)`. */
  function ElapsedDays(started: int, completed: int): real {
    var days := (completed - started) as real / 86400.0;
    if days < 0.0 then 0.0 else days
  }

  datatype Evidence = Evidence(
    passed: bool, evidenceMode: string, startedAt: int, completedAt: int, observedDates: seq<string>,
    minimumDays: int, gitSha: string, releaseId: string, dataReleaseId: string, manifestSha: string,
    accountIds: seq<string>, sampleCount: nat, hashChainValid: bool, ledgerPassed: bool, recoveryPassed: bool,
    samples: seq<Sample>)

  function LastObserved(s: SoakState): int
    requires s.samples != []
  {
    s.samples[|s.samples| - 1].body.observedAt
  }

  /** `_paper_ready_to_finalize`. */
  predicate Ready(paperDays: int, file: Option<SoakState>) {
    && file.Some?
    && file.value.samples != []
    && LastObserved(file.value) - file.value.startedAt >= paperDays * 86400
    && |Dates(file.value.samples)| >= paperDays
  }

  /** The three interruption scenarios that must have been recovered from. */
  ghost predicate Recovered(fault: FaultPayload) {
    && fault.passed
    && forall n :: n in {"database_short_disconnect", "rabbitmq_outage", "worker_crash"} ==>
         n in fault.scenarios && fault.scenarios[n]
  }

  /** `dates` lists the non-empty local dates of the samples, each once, in ascending order. */
  ghost predicate ListsDates(dates: seq<string>, samples: seq<Sample>) {
    && (forall d :: d in dates <==> d != "" && exists s :: s in samples && s.body.localDate == d)
    && forall i, j :: 0 <= i < j < |dates| ==> dates[i] != dates[j] && Ascending(dates[i], dates[j])
  }

  /** The soak lasted the minimum: in seconds, a day having 86400. */
  ghost predicate LastedSeconds(state: SoakState, days: int)
    requires state.samples != []
  {
    days <= 0 || state.samples[|state.samples| - 1].body.observedAt - state.startedAt >= days * 86400
  }

  lemma SortedDates(dates: seq<string>, samples: seq<Sample>)
    requires IsSortedList(dates, Dates(samples))
    ensures ListsDates(dates, samples)
  {
    forall d ensures d in dates <==> d in Dates(samples) {}
    forall i, j | 0 <= i < j < |dates| ensures Ascending(dates[i], dates[j]) {
      StringLeqMeaning(dates[i], dates[j]);
    }
  }

  lemma LastedDays(state: SoakState, days: int)
    requires state.samples != []
    ensures ElapsedDays(state.startedAt, LastObserved(state)) >= days as real <==> LastedSeconds(state, days)
  {
    if days > 0 {
      ElapsedReaches(state.startedAt, LastObserved(state), days);
    }
  }

  /** What `finalize` puts into its evidence. */
  ghost predicate Finalized(digest: Digest, state: SoakState, fault: FaultPayload, minimumDays: int, e: Evidence)
    requires state.samples != []
  {
    && e.startedAt == state.startedAt && e.completedAt == state.samples[|state.samples| - 1].body.observedAt
    && e.gitSha == state.gitSha && e.releaseId == state.releaseId && e.dataReleaseId == state.dataReleaseId
    && e.evidenceMode == "production_shape_observation" && e.minimumDays == minimumDays
    && e.manifestSha == state.manifestSha && e.accountIds == state.accountIds
    && e.samples == state.samples && e.sampleCount == |state.samples|
    && ListsDates(e.observedDates, state.samples)
    && (e.hashChainValid <==> Verifies(digest, state.samples))
    && (e.ledgerPassed <==> forall s :: s in state.samples ==> s.body.projectionPassed)
    && (e.recoveryPassed <==> Recovered(fault))
    && (e.passed <==> LastedSeconds(state, minimumDays) && |e.observedDates| >= minimumDays &&
                      e.hashChainValid && e.ledgerPassed && e.recoveryPassed)
  }

  method Finalize(digest: Digest, state: SoakState, fault: FaultPayload, minimumDays: int) returns (r: Result<Evidence>)
    ensures r.Error? <==> state.samples == []
    ensures r.Ok? ==> Finalized(digest, state, fault, minimumDays, r.value)
  {
    if state.samples == [] {
      return Error("paper_soak_samples_missing");
    }
    var elapsed := ElapsedDays(state.startedAt, LastObserved(state));
    var dates := SortedListOf(Dates(state.samples));
    var projection := forall s :: s in state.samples ==> s.body.projectionPassed;
    var valid := CheckChain(digest, state.samples);
    var recovery := RecoveryPassed(fault);
    SortedDates(dates, state.samples);
    LastedDays(state, minimumDays);
    var passed := elapsed >= minimumDays as real && |dates| >= minimumDays && projection && valid && recovery;
    return Ok(Evidence(passed, "production_shape_observation", state.startedAt, LastObserved(state), dates,
                       minimumDays, state.gitSha, state.releaseId, state.dataReleaseId, state.manifestSha,
                       state.accountIds, |state.samples|, valid, projection, recovery, state.samples));
  }

  lemma ElapsedReaches(started: int, completed: int, days: int)
    requires days > 0
    ensures ElapsedDays(started, completed) >= days as real <==> completed - started >= days * 86400
  {
    var x := (completed - started) as real;
    assert x / 86400.0 >= days as real <==> x >= days as real * 86400.0;
    assert days as real * 86400.0 == (days * 86400) as real;
  }

  lemma ListedDates(dates: seq<string>, samples: seq<Sample>)
    requires ListsDates(dates, samples)
    ensures |dates| == |Dates(samples)|
  {
    DistinctCounts(dates);
    forall d ensures d in dates <==> d in Dates(samples) {}
    assert (set d | d in dates) == Dates(samples);
  }

  /** The campaign's readiness test is exactly the duration and date part of finalization. */
  lemma ReadyIffBoundsMet(state: SoakState, paperDays: int, dates: seq<string>)
    requires paperDays > 0 && state.samples != [] && ListsDates(dates, state.samples)
    ensures Ready(paperDays, Some(state)) <==> LastedSeconds(state, paperDays) && |dates| >= paperDays
  {
    ListedDates(dates, state.samples);
  }

  /** Whatever number of days is configured, a ready soak meets both bounds of finalization. */
  lemma ReadyMeetsBounds(state: SoakState, paperDays: int, dates: seq<string>)
    requires Ready(paperDays, Some(state)) && ListsDates(dates, state.samples)
    ensures LastedSeconds(state, paperDays) && |dates| >= paperDays
    ensures ElapsedDays(state.startedAt, LastObserved(state)) >= paperDays as real
  {
    ListedDates(dates, state.samples);
    LastedDays(state, paperDays);
  }

  /** An honest soak that the campaign judges ready passes finalization exactly when every
      projection held and the interruption scenarios recovered. */
  lemma ReadyFinalizes(digest: Digest, state: SoakState, fault: FaultPayload, paperDays: int, e: Evidence)
    requires Ready(paperDays, Some(state)) && Honest(digest, state)
    requires Finalized(digest, state, fault, paperDays, e)
    ensures e.passed <==> Recovered(fault) && forall s :: s in state.samples ==> s.body.projectionPassed
    ensures LastedSeconds(state, paperDays) && |e.observedDates| >= paperDays
  {
    ReadyMeetsBounds(state, paperDays, e.observedDates);
  }

  /** From observation to evidence: after a start and any observations of that release, finalization
      finds the chain intact, the ledger passed exactly when every observation's projection did, and
      the observations' own dates and last moment. */
  lemma ObservedFinalizes(digest: Digest, s: SoakState, observations: seq<Observation>, fault: FaultPayload,
                          minimumDays: int, e: Evidence)
    requires s.samples == [] && observations != [] && forall o :: o in observations ==> SameRelease(s, o)
    requires ObserveAll(digest, s, observations).samples != []
    requires Finalized(digest, ObserveAll(digest, s, observations), fault, minimumDays, e)
    ensures e.hashChainValid && e.sampleCount == |observations|
    ensures e.ledgerPassed <==> forall o :: o in observations ==> o.projectionPassed
    ensures forall d :: d in e.observedDates <==> d != "" && exists o :: o in observations && o.localDate == d
    ensures e.startedAt == s.startedAt && e.completedAt == observations[|observations| - 1].at
  {
    EveryRunVerifies(digest, s, observations);
    var t := ObserveAll(digest, s, observations);
    SamplesTell(t.samples, observations, "");
    forall d ensures d in e.observedDates <==> d != "" && exists o :: o in observations && o.localDate == d {
      SamplesTell(t.samples, observations, d);
    }
    assert Tells(t.samples[|observations| - 1], observations[|observations| - 1]);
  }

  /** Samples and observations tell the same projections and, of a day, the same. */
  lemma {:induction false} SamplesTell(samples: seq<Sample>, observations: seq<Observation>, d: string)
    requires |samples| == |observations| && forall i :: 0 <= i < |samples| ==> Tells(samples[i], observations[i])
    ensures (forall s :: s in samples ==> s.body.projectionPassed) <==>
            (forall o :: o in observations ==> o.projectionPassed)
    ensures (exists s :: s in samples && s.body.localDate == d) <==>
            (exists o :: o in observations && o.localDate == d)
    decreases |samples|
  {
    if samples != [] {
      var n := |samples| - 1;
      assert Tells(samples[n], observations[n]);
      SamplesTell(samples[..n], observations[..n], d);
      assert samples == samples[..n] + [samples[n]];
      assert observations == observations[..n] + [observations[n]];
    }
  }
}

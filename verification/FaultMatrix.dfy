/** The fail-closed fault matrix, scripts/build_fault_matrix.py:33-220.
    A missing, null or empty text field of a payload is the empty string. */
module FaultMatrix {
  import opened Wrappers
  import opened Sorting
  import opened Text

  /** A field that should hold an object: absent, some other value, or an object. */
  datatype Field = Absent | Other(truthy: bool) | Object(entries: map<string, string>)

  predicate Truthy(f: Field) {
    (f.Other? && f.truthy) || (f.Object? && f.entries != map[])
  }

  predicate NonEmptyObject(f: Field) {
    f.Object? && f.entries != map[]
  }

  datatype Identity = Identity(gitSha: string, releaseGitSha: string, releaseId: string)

  const Unbound: Identity := Identity("", "", "")

  /** A scenario evidence file; `passed` is `None` when the key is absent. */
  datatype Payload = Payload(
    gitSha: string, releaseGitSha: string, releaseId: string,
    passed: Option<bool>, status: string, generatedAt: string,
    trace: Field, invariants: Field, invariantResults: Field)

  datatype ServiceItem = NotObject | Item(passed: bool, trace: Field, invariants: Field)

  datatype Service = Service(
    path: string, status: string, passed: Option<bool>,
    gitSha: string, releaseGitSha: string, releaseId: string, scenarios: map<string, ServiceItem>)

  datatype File = File(name: string, path: string, payload: Payload)

  datatype Scenario = Scenario(passed: bool, identity: Identity, trace: Field, invariants: Field)

  /** The `resolved` identity of a source: `releaseGitSha` falls back to `gitSha`. */
  function Resolve(gitSha: string, releaseGitSha: string, releaseId: string): Identity {
    Identity(gitSha, if releaseGitSha != "" then releaseGitSha else gitSha, releaseId)
  }

  function SourceOf(f: File): Identity {
    Resolve(f.payload.gitSha, f.payload.releaseGitSha, f.payload.releaseId)
  }

  function ServiceSource(s: Service): Identity {
    Resolve(s.gitSha, s.releaseGitSha, s.releaseId)
  }

  /** `_normalize_scenario`. */
  function Normalize(f: File): Scenario {
    var p := f.payload;
    var trace := if p.trace.Object? then p.trace
                 else Object(map["source" := f.path, "status" := p.status, "generatedAt" := p.generatedAt]);
    var invariants := if p.invariants.Object? then p.invariants
                      else if p.invariantResults.Object? then p.invariantResults
                      else
                        Object(map["passed" := if p.passed == Some(true) then "true" else "false",
                                   "sourceStatus" := p.status]);
    var passed := if p.passed.Some? then p.passed.value
                  else Lower(p.status) in {"passed", "pass", "success", "fault_pass"};
    Scenario(passed, SourceOf(f), trace, invariants)
  }

  function ServiceScenario(s: Service, item: ServiceItem): Scenario
    requires item.Item?
  {
    Scenario(item.passed, ServiceSource(s), item.trace, item.invariants)
  }

  predicate Complete(s: Scenario) {
    NonEmptyObject(s.trace) && NonEmptyObject(s.invariants)
  }

  datatype IdentityError =
    | IdentityMissing(field: string)
    | SourceRuntimeGitMismatch
    | IdentityMismatch(field: string)

  datatype Matrix = Matrix(
    passed: bool, identity: Identity, required: seq<string>,
    missing: seq<string>, failed: seq<string>, incomplete: seq<string>,
    identityErrors: seq<IdentityError>, duplicates: seq<string>, scenarios: map<string, Scenario>,
    sources: seq<SourceRow>)

  /** What the matrix records of a file it used. */
  datatype SourceRow =
    | ServiceRow(path: string, status: string, verdict: Option<bool>, identity: Identity)
    | ScenarioRow(scenario: string, path: string, status: string, passed: bool, identity: Identity)

  function RowOfService(s: Service): SourceRow {
    ServiceRow(s.path, s.status, s.passed, ServiceSource(s))
  }

  function RowOfFile(f: File): SourceRow {
    ScenarioRow(f.name, f.path, f.payload.status, Normalize(f).passed, SourceOf(f))
  }

  // ----- Binding one identity -----

  /** A source is usable: fully identified, and checkout and runtime agree. */
  predicate Identified(i: Identity) {
    i.gitSha != "" && i.releaseGitSha != "" && i.releaseId != "" && i.gitSha == i.releaseGitSha
  }

  /** All sources are usable and carry the identity of the first. */
  predicate OneIdentity(sources: seq<Identity>) {
    forall k :: 0 <= k < |sources| ==> Identified(sources[k]) && sources[k] == sources[0]
  }

  /** The error says what source `i` lacks by itself. */
  ghost predicate Lacks(i: Identity, e: IdentityError) {
    match e
    case IdentityMissing(field) =>
      || (field == "gitSha" && i.gitSha == "") || (field == "releaseGitSha" && i.releaseGitSha == "")
      || (field == "releaseId" && i.releaseId == "")
    case SourceRuntimeGitMismatch => i.gitSha != "" && i.releaseGitSha != "" && i.gitSha != i.releaseGitSha
    case IdentityMismatch(_) => false
  }

  /** The error names a field in which source `i` differs from the identity already bound. */
  ghost predicate Contradicts(bound: Identity, i: Identity, e: IdentityError) {
    && bound.releaseGitSha != "" && e.IdentityMismatch?
    && (|| (e.field == "gitSha" && bound.gitSha != "" && i.gitSha != "" && bound.gitSha != i.gitSha)
        || (e.field == "releaseGitSha" && i.releaseGitSha != "" && bound.releaseGitSha != i.releaseGitSha)
        || (e.field == "releaseId" && bound.releaseId != "" && i.releaseId != "" && bound.releaseId != i.releaseId))
  }

  /** The first source that names a release and its commit, or nothing. */
  ghost function FirstBound(sources: seq<Identity>): Identity {
    if sources == [] then Unbound
    else
      var n := |sources| - 1;
      var before := FirstBound(sources[..n]);
      if before.releaseGitSha == "" && sources[n].releaseGitSha != "" && sources[n].releaseId != "" then sources[n]
      else before
  }

  ghost predicate ErrorAt(sources: seq<Identity>, e: IdentityError, k: nat)
    requires k < |sources|
  {
    Lacks(sources[k], e) || Contradicts(FirstBound(sources[..k]), sources[k], e)
  }

  /** Some source lacks something or contradicts what was bound before it. */
  ghost predicate HasError(sources: seq<Identity>, e: IdentityError) {
    exists k :: 0 <= k < |sources| && ErrorAt(sources, e, k)
  }

  /** What the closure's variables say about the sources bound so far: exactly their errors, and the
      first source that can be bound. */
  ghost predicate Bound(sources: seq<Identity>, identity: Identity, errors: seq<IdentityError>) {
    && identity == FirstBound(sources)
    && (forall e :: e in errors <==> HasError(sources, e))
  }

  lemma HasErrorStep(sources: seq<Identity>, resolved: Identity, e: IdentityError)
    ensures HasError(sources + [resolved], e) <==>
            HasError(sources, e) || Lacks(resolved, e) || Contradicts(FirstBound(sources), resolved, e)
  {
    var all, n := sources + [resolved], |sources|;
    assert all[..n] == sources && all[n] == resolved;
    forall k | 0 <= k < n ensures ErrorAt(all, e, k) <==> ErrorAt(sources, e, k) {
      assert all[..k] == sources[..k] && all[k] == sources[k];
    }
    assert ErrorAt(all, e, n) <==> Lacks(resolved, e) || Contradicts(FirstBound(sources), resolved, e);
  }

  lemma NothingBound()
    ensures Bound([], Unbound, [])
  {
  }

  lemma BoundStep(sources: seq<Identity>, before: Identity, errors: seq<IdentityError>, resolved: Identity,
                  between: seq<IdentityError>, after: Identity, errors': seq<IdentityError>)
    requires Bound(sources, before, errors)
    requires forall e :: e in between <==> e in errors || Lacks(resolved, e)
    requires forall e :: e in errors' <==> e in between || Contradicts(before, resolved, e)
    requires after == if before.releaseGitSha == "" && resolved.releaseGitSha != "" && resolved.releaseId != ""
                      then resolved else before
    ensures Bound(sources + [resolved], after, errors')
  {
    forall e ensures e in errors' <==> HasError(sources + [resolved], e) { HasErrorStep(sources, resolved, e); }
    assert (sources + [resolved])[..|sources|] == sources;
  }

  /** Without errors all sources carry one identity, and it is the one bound. */
  lemma {:induction false} NoErrorIff(sources: seq<Identity>)
    ensures (forall e :: !HasError(sources, e)) <==> OneIdentity(sources)
    ensures OneIdentity(sources) ==> FirstBound(sources) == if sources == [] then Unbound else sources[0]
  {
    if sources != [] {
      var n := |sources| - 1;
      var front, last := sources[..n], sources[n];
      NoErrorIff(front);
      assert sources == front + [last];
      OneMore(front, last);
      forall e
        ensures HasError(sources, e) <==>
                HasError(front, e) || Lacks(last, e) || Contradicts(FirstBound(front), last, e)
      {
        HasErrorStep(front, last, e);
      }
      if OneIdentity(front) {
        Unobjected(if front == [] then Unbound else front[0], last);
      }
      if OneIdentity(sources) {
        assert sources[0] == if front == [] then last else front[0];
      }
    }
  }

  /** A source to which nothing is objected is complete and, once something is bound, the same. */
  lemma Unobjected(bound: Identity, i: Identity)
    requires bound == Unbound || Identified(bound)
    ensures (forall e :: !Lacks(i, e) && !Contradicts(bound, i, e)) <==>
            Identified(i) && (bound != Unbound ==> i == bound)
  {
    if forall e :: !Lacks(i, e) && !Contradicts(bound, i, e) {
      assert !Lacks(i, IdentityMissing("gitSha")) && !Lacks(i, IdentityMissing("releaseGitSha"));
      assert !Lacks(i, IdentityMissing("releaseId")) && !Lacks(i, SourceRuntimeGitMismatch);
      assert !Contradicts(bound, i, IdentityMismatch("gitSha"));
      assert !Contradicts(bound, i, IdentityMismatch("releaseId"));
      assert !Contradicts(bound, i, IdentityMismatch("releaseGitSha"));
    }
  }

  lemma BoundMeaning(sources: seq<Identity>, identity: Identity, errors: seq<IdentityError>)
    requires Bound(sources, identity, errors)
    ensures errors == [] <==> OneIdentity(sources)
    ensures errors == [] ==> identity == if sources == [] then Unbound else sources[0]
  {
    NoErrorIff(sources);
    assert errors != [] ==> errors[0] in errors;
  }

  lemma OneMore(sources: seq<Identity>, resolved: Identity)
    ensures (sources + [resolved])[0] == if sources == [] then resolved else sources[0]
    ensures OneIdentity(sources + [resolved]) <==>
            OneIdentity(sources) && Identified(resolved) && (sources != [] ==> resolved == sources[0])
  {
    var all := sources + [resolved];
    assert all[|sources|] == resolved && forall k :: 0 <= k < |sources| ==> all[k] == sources[k];
    assert OneIdentity(all) ==> Identified(all[|sources|]) && resolved == all[0];
  }

  class Builder {
    var identity: Identity
    var identityErrors: seq<IdentityError>
    var scenarios: map<string, Scenario>
    var duplicates: seq<string>
    var sources: seq<SourceRow>

    constructor ()
      ensures identity == Unbound && identityErrors == [] && scenarios == map[] && duplicates == [] && sources == []
    {
      identity, identityErrors, scenarios, duplicates, sources := Unbound, [], map[], [], [];
    }

    /** `bind_identity`. */
    method BindIdentity(resolved: Identity, ghost bound: seq<Identity>)
      requires Bound(bound, identity, identityErrors)
      modifies this`identity, this`identityErrors
      ensures Bound(bound + [resolved], identity, identityErrors)
    {
      ghost var before, errors := identity, identityErrors;
      CheckSource(resolved);
      ghost var between := identityErrors;
      CheckBound(resolved);
      BoundStep(bound, before, errors, resolved, between, identity, identityErrors);
    }

    /** Lines 101-117: what a source lacks by itself. */
    method CheckSource(resolved: Identity)
      modifies this`identityErrors
      ensures forall e :: e in identityErrors <==> e in old(identityErrors) || Lacks(resolved, e)
    {
      if resolved.gitSha == "" {
        identityErrors := identityErrors + [IdentityMissing("gitSha")];
      }
      if resolved.releaseGitSha == "" {
        identityErrors := identityErrors + [IdentityMissing("releaseGitSha")];
      }
      if resolved.releaseId == "" {
        identityErrors := identityErrors + [IdentityMissing("releaseId")];
      }
      if resolved.gitSha != "" && resolved.releaseGitSha != "" && resolved.gitSha != resolved.releaseGitSha {
        identityErrors := identityErrors + [SourceRuntimeGitMismatch];
      }
    }

    /** Lines 118-131: bind the first, compare the others. */
    method CheckBound(resolved: Identity)
      modifies this`identity, this`identityErrors
      ensures identity ==
              if old(identity).releaseGitSha == "" && resolved.releaseGitSha != "" && resolved.releaseId != ""
              then resolved else old(identity)
      ensures forall e :: e in identityErrors <==> e in old(identityErrors) || Contradicts(old(identity), resolved, e)
    {
      if identity.releaseGitSha == "" && resolved.releaseGitSha != "" && resolved.releaseId != "" {
        identity := resolved;
      } else if identity.releaseGitSha != "" {
        if identity.gitSha != "" && resolved.gitSha != "" && identity.gitSha != resolved.gitSha {
          identityErrors := identityErrors + [IdentityMismatch("gitSha")];
        }
        if resolved.releaseGitSha != "" && identity.releaseGitSha != resolved.releaseGitSha {
          identityErrors := identityErrors + [IdentityMismatch("releaseGitSha")];
        }
        if identity.releaseId != "" && resolved.releaseId != "" && identity.releaseId != resolved.releaseId {
          identityErrors := identityErrors + [IdentityMismatch("releaseId")];
        }
      }
    }

    /** The service-restart evidence, lines 134-157. */
    method BindService(s: Service)
      requires Bound([], identity, identityErrors) && scenarios == map[]
      modifies this
      ensures Bound([] + [ServiceSource(s)], identity, identityErrors)
      ensures duplicates == old(duplicates) && sources == old(sources) + [RowOfService(s)]
      ensures scenarios == ServiceScenarios(Some(s))
    {
      BindItems(s);
      sources := sources + [RowOfService(s)];
      BindIdentity(ServiceSource(s), []);
    }

    /** The loop over the service scenarios, lines 140-148. */
    method BindItems(s: Service)
      requires scenarios == map[]
      modifies this`scenarios
      ensures scenarios == ServiceScenarios(Some(s))
    {
      var rest := s.scenarios.Keys;
      while rest != {}
        invariant rest <= s.scenarios.Keys
        invariant scenarios.Keys == set n | n in s.scenarios && n !in rest && s.scenarios[n].Item?
        invariant forall n :: n in scenarios ==> scenarios[n] == ServiceScenario(s, s.scenarios[n])
        decreases |rest|
      {
        var name :| name in rest;
        rest := rest - {name};
        if s.scenarios[name].Item? {
          scenarios := scenarios[name := ServiceScenario(s, s.scenarios[name])];
        }
      }
    }

    /** One turn of the loop at lines 159-175. */
    method BindFile(f: File, ghost bound: seq<Identity>)
      requires Bound(bound, identity, identityErrors)
      modifies this
      ensures Bound(bound + [SourceOf(f)], identity, identityErrors)
      ensures if f.name in old(scenarios)
              then duplicates == old(duplicates) + [f.name] && scenarios == old(scenarios) && sources == old(sources)
              else duplicates == old(duplicates) && scenarios == old(scenarios)[f.name := Normalize(f)] &&
                   sources == old(sources) + [RowOfFile(f)]
    {
      BindIdentity(SourceOf(f), bound);
      if f.name in scenarios {
        duplicates := duplicates + [f.name];
        return;
      }
      scenarios := scenarios[f.name := Normalize(f)];
      sources := sources + [RowOfFile(f)];
    }
  }

  function ServiceScenarios(service: Option<Service>): map<string, Scenario> {
    if service.None? then map[]
    else map n | n in service.value.scenarios && service.value.scenarios[n].Item? ::
           ServiceScenario(service.value, service.value.scenarios[n])
  }

  function Sources(service: Option<Service>, files: seq<File>): seq<Identity> {
    (if service.Some? then [ServiceSource(service.value)] else []) + Map(SourceOf, files)
  }

  // ----- The simple specification -----

  /** No scenario is bound twice. */
  ghost predicate NoRepeat(service: Option<Service>, files: seq<File>) {
    && (forall i, j :: 0 <= i < j < |files| ==> files[i].name != files[j].name)
    && (forall i :: 0 <= i < |files| ==> files[i].name !in ServiceScenarios(service))
  }

  /** Some source shows scenario `n` passed with a non-empty trace and non-empty invariants. */
  ghost predicate Shown(service: Option<Service>, files: seq<File>, n: string) {
    || (n in ServiceScenarios(service) && ServiceScenarios(service)[n].passed && Complete(ServiceScenarios(service)[n]))
    || exists f :: f in files && f.name == n && Normalize(f).passed && Complete(Normalize(f))
  }

  /** When the matrix passes. */
  ghost predicate Passing(required: seq<string>, service: Option<Service>, files: seq<File>) {
    && required != []
    && Sources(service, files) != [] && OneIdentity(Sources(service, files))
    && NoRepeat(service, files)
    && forall n :: n in required ==> Shown(service, files, n)
  }

  /** The table built from distinct bindings. */
  ghost predicate Table(service: Option<Service>, files: seq<File>, scenarios: map<string, Scenario>) {
    && (forall n :: n in ServiceScenarios(service) ==> n in scenarios && scenarios[n] == ServiceScenarios(service)[n])
    && (forall i :: 0 <= i < |files| ==> files[i].name in scenarios && scenarios[files[i].name] == Normalize(files[i]))
    && (forall n :: n in scenarios ==> n in ServiceScenarios(service) || exists f :: f in files && f.name == n)
  }

  // ----- What the table holds, repeats or not: the first binding of a name wins -----

  function FirstNamed(files: seq<File>, n: string): Option<Scenario> {
    if files == [] then None
    else if files[0].name == n then Some(Normalize(files[0]))
    else FirstNamed(files[1..], n)
  }

  function Entry(service: Option<Service>, files: seq<File>, n: string): Option<Scenario> {
    if n in ServiceScenarios(service) then Some(ServiceScenarios(service)[n]) else FirstNamed(files, n)
  }

  ghost predicate FirstWins(service: Option<Service>, files: seq<File>, scenarios: map<string, Scenario>) {
    forall n :: Entry(service, files, n) == if n in scenarios then Some(scenarios[n]) else None
  }

  lemma {:induction false} FirstNamedStep(files: seq<File>, f: File, n: string)
    ensures FirstNamed(files + [f], n) ==
            if FirstNamed(files, n).None? && f.name == n then Some(Normalize(f)) else FirstNamed(files, n)
  {
    if files == [] {
      assert [f][1..] == [];
    } else {
      FirstNamedStep(files[1..], f, n);
      assert (files + [f])[1..] == files[1..] + [f];
    }
  }

  lemma {:induction false} FirstNamedSome(files: seq<File>, n: string)
    ensures FirstNamed(files, n).Some? <==> exists i :: 0 <= i < |files| && files[i].name == n
  {
    if files != [] {
      FirstNamedSome(files[1..], n);
      if FirstNamed(files[1..], n).Some? {
        var i :| 0 <= i < |files| - 1 && files[1..][i].name == n;
        assert files[i + 1].name == n;
      }
      if i :| 0 < i < |files| && files[i].name == n {
        assert files[1..][i - 1].name == n;
      }
    }
  }

  lemma EntryNamed(service: Option<Service>, files: seq<File>, n: string)
    ensures Entry(service, files, n).Some? <==>
            n in ServiceScenarios(service) || exists i :: 0 <= i < |files| && files[i].name == n
  {
    FirstNamedSome(files, n);
  }

  /** The files whose name was not bound before, in order. */
  function FirstFiles(service: Option<Service>, files: seq<File>): seq<File> {
    if files == [] then []
    else
      var n := |files| - 1;
      FirstFiles(service, files[..n]) + if Entry(service, files[..n], files[n].name).None? then [files[n]] else []
  }

  function SourceRows(service: Option<Service>, files: seq<File>): seq<SourceRow> {
    (if service.Some? then [RowOfService(service.value)] else []) + Map(RowOfFile, FirstFiles(service, files))
  }

  lemma SourceRowsStep(service: Option<Service>, files: seq<File>, f: File, scenarios: map<string, Scenario>)
    requires FirstWins(service, files, scenarios)
    ensures SourceRows(service, files + [f]) ==
            SourceRows(service, files) + if f.name in scenarios then [] else [RowOfFile(f)]
  {
    assert (files + [f])[..|files|] == files;
    assert Entry(service, files, f.name).None? <==> f.name !in scenarios;
    var g := FirstFiles(service, files);
    assert Map(RowOfFile, g + [f]) == Map(RowOfFile, g) + [RowOfFile(f)];
  }

  /** Every listed file was bound first, so its name is named and not the service's. */
  lemma {:induction false} FirstFilesNamed(service: Option<Service>, files: seq<File>)
    ensures forall f :: f in FirstFiles(service, files) ==>
              f in files && f.name !in ServiceScenarios(service) && Entry(service, files, f.name).Some?
  {
    if files != [] {
      var n := |files| - 1;
      var f, rest := files[n], files[..n];
      FirstFilesNamed(service, rest);
      assert files == rest + [f];
      forall g | g in FirstFiles(service, files) ensures Entry(service, files, g.name).Some? && g in files {
        FirstNamedStep(rest, f, g.name);
      }
    }
  }

  /** The listed files have different names. */
  lemma {:induction false} FirstFilesDistinct(service: Option<Service>, files: seq<File>)
    ensures NoRepeat(service, FirstFiles(service, files))
  {
    FirstFilesNamed(service, files);
    if files != [] {
      var n := |files| - 1;
      var rest := FirstFiles(service, files[..n]);
      FirstFilesDistinct(service, files[..n]);
      FirstFilesNamed(service, files[..n]);
      if Entry(service, files[..n], files[n].name).None? {
        assert forall i :: 0 <= i < |rest| ==> rest[i] in rest;
      }
    }
  }

  lemma FirstWinsStep(service: Option<Service>, files: seq<File>, f: File, scenarios: map<string, Scenario>)
    requires FirstWins(service, files, scenarios)
    ensures FirstWins(service, files + [f],
                      if f.name in scenarios then scenarios else scenarios[f.name := Normalize(f)])
  {
    var scenarios' := if f.name in scenarios then scenarios else scenarios[f.name := Normalize(f)];
    forall n ensures Entry(service, files + [f], n) == if n in scenarios' then Some(scenarios'[n]) else None {
      FirstNamedStep(files, f, n);
      assert Entry(service, files, n) == if n in scenarios then Some(scenarios[n]) else None;
    }
  }

  /** Scenario `n` is bound a second time. */
  ghost predicate Repeated(service: Option<Service>, files: seq<File>, n: string) {
    || (n in ServiceScenarios(service) && exists i :: 0 <= i < |files| && files[i].name == n)
    || exists i, j :: 0 <= i < j < |files| && files[i].name == n && files[j].name == n
  }

  lemma NoRepeatIff(service: Option<Service>, files: seq<File>)
    ensures NoRepeat(service, files) <==> forall n :: !Repeated(service, files, n)
  {
    forall i, j | 0 <= i < j < |files| && files[i].name == files[j].name
      ensures exists n :: Repeated(service, files, n)
    {
      assert Repeated(service, files, files[i].name);
    }
    forall i | 0 <= i < |files| && files[i].name in ServiceScenarios(service)
      ensures exists n :: Repeated(service, files, n)
    {
      assert Repeated(service, files, files[i].name);
    }
  }

  /** A file repeats its name exactly when the name was bound before. */
  lemma RepeatedStep(service: Option<Service>, files: seq<File>, f: File, n: string)
    ensures Repeated(service, files + [f], n) <==>
            Repeated(service, files, n) ||
            (n == f.name && (n in ServiceScenarios(service) || exists i :: 0 <= i < |files| && files[i].name == n))
  {
    var all := files + [f];
    assert all[|files|] == f && forall i :: 0 <= i < |files| ==> all[i] == files[i];
    if i :| 0 <= i < |files| && files[i].name == n {
      assert all[i].name == n;
    }
    if i, j :| 0 <= i < j < |files| && files[i].name == n && files[j].name == n {
      assert all[i].name == n && all[j].name == n;
    }
    if i, j :| 0 <= i < j < |all| && all[i].name == n && all[j].name == n {
      assert files[i].name == n;
    }
  }

  ghost predicate Built(service: Option<Service>, files: seq<File>, scenarios: map<string, Scenario>,
                        duplicates: seq<string>)
  {
    && (forall n :: n in duplicates <==> Repeated(service, files, n))
    && (duplicates == [] ==> Table(service, files, scenarios))
  }

  lemma NoDuplicates(service: Option<Service>, files: seq<File>, duplicates: seq<string>)
    requires forall n :: n in duplicates <==> Repeated(service, files, n)
    ensures duplicates == [] <==> NoRepeat(service, files)
  {
    NoRepeatIff(service, files);
    assert duplicates != [] ==> duplicates[0] in duplicates;
  }

  lemma BuiltStep(service: Option<Service>, files: seq<File>, f: File,
                  scenarios: map<string, Scenario>, duplicates: seq<string>)
    requires Built(service, files, scenarios, duplicates) && FirstWins(service, files, scenarios)
    ensures if f.name in scenarios then Built(service, files + [f], scenarios, duplicates + [f.name])
            else Built(service, files + [f], scenarios[f.name := Normalize(f)], duplicates)
  {
    EntryNamed(service, files, f.name);
    forall n
      ensures Repeated(service, files + [f], n) <==> Repeated(service, files, n) || (n == f.name && n in scenarios)
    {
      RepeatedStep(service, files, f, n);
    }
    if duplicates == [] && f.name !in scenarios {
      TableStep(service, files, f, scenarios);
    }
  }

  lemma TableStep(service: Option<Service>, files: seq<File>, f: File, scenarios: map<string, Scenario>)
    requires Table(service, files, scenarios) && f.name !in scenarios
    ensures Table(service, files + [f], scenarios[f.name := Normalize(f)])
  {
    var all, after := files + [f], scenarios[f.name := Normalize(f)];
    forall i | 0 <= i < |all| ensures all[i].name in after && after[all[i].name] == Normalize(all[i]) {
      if i < |files| {
        assert files[i].name in scenarios;
      }
    }
    forall n | n in after ensures n in ServiceScenarios(service) || exists g :: g in all && g.name == n {
      if n == f.name {
        assert f in all;
      } else if g :| g in files && g.name == n {
        assert g in all;
      }
    }
  }

  lemma FilterNone<T>(keep: T -> bool, s: seq<T>)
    ensures Filter(keep, s) == [] <==> forall x :: x in s ==> !keep(x)
  {
    FilterMembers(keep, s);
    if Filter(keep, s) != [] {
      assert Filter(keep, s)[0] in Filter(keep, s);
    }
  }

  /** The three lists name exactly the required scenarios without an entry, with a failed one and
      with one whose trace or invariants are empty. */
  ghost predicate ListsExact(required: seq<string>, m: Matrix) {
    && (forall n :: n in m.missing <==> n in required && n !in m.scenarios)
    && (forall n :: n in m.failed <==> n in required && n in m.scenarios && !m.scenarios[n].passed)
    && (forall n :: n in m.incomplete <==>
          n in required && n in m.scenarios &&
          !(Filled(m.scenarios[n].trace) && Filled(m.scenarios[n].invariants)))
  }

  lemma AssembleLists(required: seq<string>, identity: Identity, errors: seq<IdentityError>,
                      duplicates: seq<string>, scenarios: map<string, Scenario>, sources: seq<SourceRow>)
    ensures ListsExact(required, Assemble(required, identity, errors, duplicates, scenarios, sources))
  {
    FilterMembers((n: string) => n !in scenarios, required);
    FilterMembers((n: string) => n in scenarios && !scenarios[n].passed, required);
    FilterMembers((n: string) => n in scenarios && !Complete(scenarios[n]), required);
  }

  /** Lines 177-203. */
  function Assemble(required: seq<string>, identity: Identity, errors: seq<IdentityError>,
                    duplicates: seq<string>, scenarios: map<string, Scenario>, sources: seq<SourceRow>): Matrix {
    var missing := Filter((n: string) => n !in scenarios, required);
    var failed := Filter((n: string) => n in scenarios && !scenarios[n].passed, required);
    var incomplete := Filter((n: string) => n in scenarios && !Complete(scenarios[n]), required);
    var identityMissing := identity.releaseId == "" || identity.releaseGitSha == "" || identity.gitSha == "";
    var passed := required != [] && missing == [] && failed == [] && incomplete == [] && !identityMissing
                  && errors == [] && duplicates == [];
    Matrix(passed, identity, required, missing, failed, incomplete, errors, duplicates, scenarios, sources)
  }

  lemma AssembleVerdict(required: seq<string>, identity: Identity, errors: seq<IdentityError>,
                        duplicates: seq<string>, scenarios: map<string, Scenario>, sources: seq<SourceRow>)
    ensures Assemble(required, identity, errors, duplicates, scenarios, sources).passed <==>
            && required != [] && errors == [] && duplicates == []
            && identity.releaseId != "" && identity.releaseGitSha != "" && identity.gitSha != ""
            && forall n :: n in required ==> n in scenarios && scenarios[n].passed && Complete(scenarios[n])
  {
    FilterNone((n: string) => n !in scenarios, required);
    FilterNone((n: string) => n in scenarios && !scenarios[n].passed, required);
    FilterNone((n: string) => n in scenarios && !Complete(scenarios[n]), required);
  }

  /** In a table without repeats a scenario is shown exactly when its own entry is good. */
  lemma ShownInTable(service: Option<Service>, files: seq<File>, scenarios: map<string, Scenario>, n: string)
    requires NoRepeat(service, files) && Table(service, files, scenarios)
    ensures Shown(service, files, n) <==> n in scenarios && scenarios[n].passed && Complete(scenarios[n])
  {
    forall f | f in files && f.name == n ensures n in scenarios && scenarios[n] == Normalize(f) {
      var i :| 0 <= i < |files| && files[i] == f;
    }
    if n in scenarios && n !in ServiceScenarios(service) {
      var f :| f in files && f.name == n;
    }
  }

  lemma VerdictIsPassing(required: seq<string>, service: Option<Service>, files: seq<File>, identity: Identity,
                         errors: seq<IdentityError>, duplicates: seq<string>, scenarios: map<string, Scenario>,
                         rows: seq<SourceRow>)
    requires Bound(Sources(service, files), identity, errors) && Built(service, files, scenarios, duplicates)
    ensures Assemble(required, identity, errors, duplicates, scenarios, rows).passed <==>
            Passing(required, service, files)
  {
    AssembleVerdict(required, identity, errors, duplicates, scenarios, rows);
    BoundMeaning(Sources(service, files), identity, errors);
    NoDuplicates(service, files, duplicates);
    var sources := Sources(service, files);
    if errors == [] && duplicates == [] {
      forall n | n in required
        ensures Shown(service, files, n) <==> n in scenarios && scenarios[n].passed && Complete(scenarios[n])
      {
        ShownInTable(service, files, scenarios, n);
      }
      assert sources != [] ==> Identified(sources[0]);
    }
  }

  lemma SourcesNone(service: Option<Service>, files: seq<File>)
    ensures files[..0] == []
    ensures Sources(service, []) == if service.Some? then [ServiceSource(service.value)] else []
  {
  }

  lemma SourcesStep(service: Option<Service>, files: seq<File>, i: nat)
    requires i < |files|
    ensures files[..i + 1] == files[..i] + [files[i]]
    ensures Sources(service, files[..i + 1]) == Sources(service, files[..i]) + [SourceOf(files[i])]
  {
  }

  // ----- The same in terms of the evidence files alone -----

  /** A source names commit `git` and release `id`; the release's commit may be left out. */
  ghost predicate Names(gitSha: string, releaseGitSha: string, releaseId: string, git: string, id: string) {
    gitSha == git && (releaseGitSha == "" || releaseGitSha == git) && releaseId == id
  }

  /** All sources name one commit and one release. */
  ghost predicate AllName(service: Option<Service>, files: seq<File>, git: string, id: string) {
    && git != "" && id != ""
    && (service.Some? ==>
          Names(service.value.gitSha, service.value.releaseGitSha, service.value.releaseId, git, id))
    && forall f :: f in files ==> Names(f.payload.gitSha, f.payload.releaseGitSha, f.payload.releaseId, git, id)
  }

  ghost predicate Filled(f: Field) {
    f.Object? && f.entries != map[]
  }

  /** A scenario file says it passed, or says nothing about it and has a passing status. */
  ghost predicate SaysPassed(p: Payload) {
    || p.passed == Some(true)
    || (p.passed == None && (Lower(p.status) == "passed" || Lower(p.status) == "pass" ||
                             Lower(p.status) == "success" || Lower(p.status) == "fault_pass"))
  }

  /** An object that the file gives as its trace or its invariants is not empty; what it does not
      give is filled in. */
  ghost predicate Documented(p: Payload) {
    && (p.trace.Object? ==> Filled(p.trace))
    && (p.invariants.Object? ==> Filled(p.invariants))
    && (!p.invariants.Object? && p.invariantResults.Object? ==> Filled(p.invariantResults))
  }

  ghost predicate FilePasses(p: Payload) {
    SaysPassed(p) && Documented(p)
  }

  /** A scenario of the service evidence shows a pass. */
  ghost predicate ItemPasses(i: ServiceItem) {
    i.Item? && i.passed && Filled(i.trace) && Filled(i.invariants)
  }

  ghost predicate Demonstrated(service: Option<Service>, files: seq<File>, n: string) {
    || (service.Some? && n in service.value.scenarios && ItemPasses(service.value.scenarios[n]))
    || exists f :: f in files && f.name == n && FilePasses(f.payload)
  }

  /** No two files have one name, and no file has the name of a scenario object of the service. */
  ghost predicate NoneTwice(service: Option<Service>, files: seq<File>) {
    && (forall i, j :: 0 <= i < j < |files| ==> files[i].name != files[j].name)
    && forall i :: 0 <= i < |files| && service.Some? && files[i].name in service.value.scenarios ==>
         service.value.scenarios[files[i].name].NotObject?
  }

  /** When a matrix deserves to pass, by the evidence files alone. */
  ghost predicate Deserves(required: seq<string>, service: Option<Service>, files: seq<File>) {
    && required != [] && (service.Some? || files != [])
    && (exists git, id :: AllName(service, files, git, id))
    && NoneTwice(service, files)
    && forall n :: n in required ==> Demonstrated(service, files, n)
  }

  /** An identity as a source gives it; the release's commit may be left out. */
  ghost predicate Given(i: Identity, gitSha: string, releaseGitSha: string, releaseId: string) {
    i.gitSha == gitSha && i.releaseId == releaseId &&
    i.releaseGitSha == if releaseGitSha != "" then releaseGitSha else gitSha
  }

  /** An entry tells what its scenario file says, with what the file does not give filled in. */
  ghost predicate FileTells(s: Scenario, f: File) {
    var p := f.payload;
    && (s.passed <==> SaysPassed(p)) && Given(s.identity, p.gitSha, p.releaseGitSha, p.releaseId)
    && s.trace == (if p.trace.Object? then p.trace
                   else Object(map["source" := f.path, "status" := p.status, "generatedAt" := p.generatedAt]))
    && s.invariants == (if p.invariants.Object? then p.invariants
                        else if p.invariantResults.Object? then p.invariantResults
                        else
                          Object(map["passed" := if p.passed == Some(true) then "true" else "false",
                                     "sourceStatus" := p.status]))
  }

  /** An entry tells what the service evidence says of its scenario. */
  ghost predicate ItemTells(s: Scenario, service: Service, item: ServiceItem) {
    && item.Item? && s.passed == item.passed && s.trace == item.trace && s.invariants == item.invariants
    && Given(s.identity, service.gitSha, service.releaseGitSha, service.releaseId)
  }

  ghost predicate ServiceHas(service: Option<Service>, n: string) {
    service.Some? && n in service.value.scenarios && service.value.scenarios[n].Item?
  }

  /** Neither the service evidence nor an earlier file binds the name of file `i`. */
  ghost predicate BindsFirst(service: Option<Service>, files: seq<File>, i: nat)
    requires i < |files|
  {
    !ServiceHas(service, files[i].name) && forall j :: 0 <= j < i ==> files[j].name != files[i].name
  }

  /** The table holds exactly the scenarios that some source binds, each as its first source tells. */
  ghost predicate TableTells(service: Option<Service>, files: seq<File>, table: map<string, Scenario>) {
    && (forall n :: n in table <==> ServiceHas(service, n) || exists i :: 0 <= i < |files| && files[i].name == n)
    && (forall n :: ServiceHas(service, n) ==>
          n in table && ItemTells(table[n], service.value, service.value.scenarios[n]))
    && (forall i :: 0 <= i < |files| && BindsFirst(service, files, i) ==>
          files[i].name in table && FileTells(table[files[i].name], files[i]))
  }

  lemma {:induction false} FirstNamedAt(files: seq<File>, i: nat)
    requires i < |files| && forall j :: 0 <= j < i ==> files[j].name != files[i].name
    ensures FirstNamed(files, files[i].name) == Some(Normalize(files[i]))
  {
    if i > 0 {
      assert files[0].name != files[i].name;
      FirstNamedAt(files[1..], i - 1);
    }
  }

  lemma TableMeaning(service: Option<Service>, files: seq<File>, table: map<string, Scenario>)
    requires FirstWins(service, files, table)
    ensures TableTells(service, files, table)
  {
    forall n ensures Entry(service, files, n) == if n in table then Some(table[n]) else None {}
    forall n ensures n in table <==> ServiceHas(service, n) || exists i :: 0 <= i < |files| && files[i].name == n {
      EntryNamed(service, files, n);
    }
    forall i | 0 <= i < |files| && BindsFirst(service, files, i)
      ensures files[i].name in table && FileTells(table[files[i].name], files[i])
    {
      FirstNamedAt(files, i);
      FileMeaning(files[i]);
    }
  }

  lemma FileMeaning(f: File)
    ensures FileTells(Normalize(f), f)
    ensures Complete(Normalize(f)) <==> Documented(f.payload)
  {
    var p := f.payload;
    var trace := map["source" := f.path, "status" := p.status, "generatedAt" := p.generatedAt];
    var invariants := map["passed" := if p.passed == Some(true) then "true" else "false", "sourceStatus" := p.status];
    assert "source" in trace && "passed" in invariants;
  }

  lemma DemonstratedIff(service: Option<Service>, files: seq<File>, n: string)
    ensures Demonstrated(service, files, n) <==> Shown(service, files, n)
  {
    forall f ensures Normalize(f).passed && Complete(Normalize(f)) <==> FilePasses(f.payload) { FileMeaning(f); }
  }

  lemma ResolvedName(gitSha: string, releaseGitSha: string, releaseId: string, git: string, id: string)
    requires git != "" && id != ""
    ensures Resolve(gitSha, releaseGitSha, releaseId) == Identity(git, git, id) <==>
            Names(gitSha, releaseGitSha, releaseId, git, id)
  {
  }

  lemma AllNameIff(service: Option<Service>, files: seq<File>, git: string, id: string)
    requires git != "" && id != ""
    ensures AllName(service, files, git, id) <==>
            forall k :: 0 <= k < |Sources(service, files)| ==> Sources(service, files)[k] == Identity(git, git, id)
  {
    var sources, o := Sources(service, files), if service.Some? then 1 else 0;
    forall f | f in files
      ensures SourceOf(f) == Identity(git, git, id) <==>
              Names(f.payload.gitSha, f.payload.releaseGitSha, f.payload.releaseId, git, id)
    {
      ResolvedName(f.payload.gitSha, f.payload.releaseGitSha, f.payload.releaseId, git, id);
    }
    if service.Some? {
      ResolvedName(service.value.gitSha, service.value.releaseGitSha, service.value.releaseId, git, id);
      assert sources[0] == ServiceSource(service.value);
    }
    assert forall i :: 0 <= i < |files| ==> sources[o + i] == SourceOf(files[i]);
    forall k | o <= k < |sources| ensures sources[k] == SourceOf(files[k - o]) {}
    if forall k :: 0 <= k < |sources| ==> sources[k] == Identity(git, git, id) {
      forall f | f in files ensures SourceOf(f) == Identity(git, git, id) {
        var i :| 0 <= i < |files| && files[i] == f;
        assert sources[o + i] == SourceOf(f);
      }
    }
  }

  /** One identity among the sources is one commit and one release that all of them name. */
  lemma OneNameIff(service: Option<Service>, files: seq<File>)
    requires Sources(service, files) != []
    ensures OneIdentity(Sources(service, files)) <==> exists git, id :: AllName(service, files, git, id)
    ensures OneIdentity(Sources(service, files)) ==>
              var i := Sources(service, files)[0];
              AllName(service, files, i.gitSha, i.releaseId) && i.releaseGitSha == i.gitSha
  {
    var sources := Sources(service, files);
    if OneIdentity(sources) {
      assert Identified(sources[0]);
      AllNameIff(service, files, sources[0].gitSha, sources[0].releaseId);
    }
    if git, id :| AllName(service, files, git, id) {
      AllNameIff(service, files, git, id);
    }
  }

  lemma PassingMeaning(required: seq<string>, service: Option<Service>, files: seq<File>)
    ensures Passing(required, service, files) <==> Deserves(required, service, files)
  {
    assert Sources(service, files) != [] <==> service.Some? || files != [];
    if Sources(service, files) != [] {
      OneNameIff(service, files);
    }
    forall n ensures Demonstrated(service, files, n) <==> Shown(service, files, n) {
      DemonstratedIff(service, files, n);
    }
    assert NoneTwice(service, files) <==> NoRepeat(service, files);
  }

  /** A source row tells where its evidence lies and what it says. */
  ghost predicate RowTells(r: SourceRow, f: File) {
    && r.ScenarioRow? && r.scenario == f.name && r.path == f.path && r.status == f.payload.status
    && (r.passed <==> SaysPassed(f.payload))
    && Given(r.identity, f.payload.gitSha, f.payload.releaseGitSha, f.payload.releaseId)
  }

  ghost predicate ServiceTells(r: SourceRow, s: Service) {
    && r.ServiceRow? && r.path == s.path && r.status == s.status && r.verdict == s.passed
    && Given(r.identity, s.gitSha, s.releaseGitSha, s.releaseId)
  }

  /** The listed sources are the service evidence and the first file of each name, in order. */
  ghost predicate SourcesTell(service: Option<Service>, files: seq<File>, rows: seq<SourceRow>) {
    var o, first := if service.Some? then 1 else 0, FirstFiles(service, files);
    && |rows| == o + |first|
    && (service.Some? ==> ServiceTells(rows[0], service.value))
    && forall i :: 0 <= i < |first| ==> RowTells(rows[o + i], first[i])
  }

  lemma SourceRowsTell(service: Option<Service>, files: seq<File>)
    ensures SourcesTell(service, files, SourceRows(service, files))
  {
    var o, first := if service.Some? then 1 else 0, FirstFiles(service, files);
    forall i | 0 <= i < |first| ensures RowTells(SourceRows(service, files)[o + i], first[i]) {
      FileMeaning(first[i]);
      assert SourceRows(service, files)[o + i] == RowOfFile(first[i]);
    }
  }

  /** `m` is a correct matrix of these sources: its verdict is the simple specification, the
      reported lists say why a matrix did not pass, and its table holds what the first source of
      each scenario says. */
  ghost predicate MatrixOf(required: seq<string>, service: Option<Service>, files: seq<File>, m: Matrix) {
    && (m.passed <==> Passing(required, service, files)) && (m.passed <==> Deserves(required, service, files))
    && (m.passed ==> AllName(service, files, m.identity.gitSha, m.identity.releaseId))
    && m.required == required && ListsExact(required, m)
    && (m.identityErrors == [] <==> OneIdentity(Sources(service, files)))
    && m.identity == FirstBound(Sources(service, files))
    && (forall e :: e in m.identityErrors <==> HasError(Sources(service, files), e))
    && IsSortedList(m.duplicates, set n | n in m.duplicates)
    && (forall n :: n in m.duplicates <==> Repeated(service, files, n))
    && SourcesTell(service, files, m.sources) && TableTells(service, files, m.scenarios)
    && (m.passed ==> m.identity == Sources(service, files)[0] && Table(service, files, m.scenarios))
  }

  /** The builder's variables after all files make a correct matrix. */
  lemma AssembledMatrix(required: seq<string>, service: Option<Service>, files: seq<File>, identity: Identity,
                        errors: seq<IdentityError>, duplicates: seq<string>, scenarios: map<string, Scenario>)
    requires Bound(Sources(service, files), identity, errors) && Built(service, files, scenarios, duplicates)
    requires FirstWins(service, files, scenarios) && IsSortedList(duplicates, set n | n in duplicates)
    ensures MatrixOf(required, service, files,
                     Assemble(required, identity, errors, duplicates, scenarios, SourceRows(service, files)))
  {
    var rows := SourceRows(service, files);
    VerdictIsPassing(required, service, files, identity, errors, duplicates, scenarios, rows);
    AssembleLists(required, identity, errors, duplicates, scenarios, rows);
    TableMeaning(service, files, scenarios);
    NoDuplicates(service, files, duplicates);
    BoundMeaning(Sources(service, files), identity, errors);
    SourceRowsTell(service, files);
    PassingMeaning(required, service, files);
    if Passing(required, service, files) {
      OneNameIff(service, files);
    }
  }

  /** `build_matrix`. */
  method BuildMatrix(required: seq<string>, service: Option<Service>, files: seq<File>) returns (m: Matrix)
    ensures MatrixOf(required, service, files, m)
  {
    var b := new Builder();
    NothingBound();
    if service.Some? {
      b.BindService(service.value);
    }
    SourcesNone(service, files);
    NothingYet(service, b.scenarios);
    for i := 0 to |files|
      invariant Bound(Sources(service, files[..i]), b.identity, b.identityErrors)
      invariant Built(service, files[..i], b.scenarios, b.duplicates)
      invariant FirstWins(service, files[..i], b.scenarios)
      invariant b.sources == SourceRows(service, files[..i])
    {
      SourcesStep(service, files, i);
      BuildStep(service, files[..i], files[i], b.scenarios, b.duplicates);
      b.BindFile(files[i], Sources(service, files[..i]));
    }
    assert files[..|files|] == files;
    var duplicates := SortedListOf(set n | n in b.duplicates);
    Listing(service, files, b.scenarios, b.duplicates, duplicates);
    AssembledMatrix(required, service, files, b.identity, b.identityErrors, duplicates, b.scenarios);
    m := Assemble(required, b.identity, b.identityErrors, duplicates, b.scenarios, b.sources);
  }

  lemma Listing(service: Option<Service>, files: seq<File>, scenarios: map<string, Scenario>,
                raw: seq<string>, sorted: seq<string>)
    requires Built(service, files, scenarios, raw) && IsSortedList(sorted, set n | n in raw)
    ensures Built(service, files, scenarios, sorted) && IsSortedList(sorted, set n | n in sorted)
  {
    var s := set n | n in raw;
    assert forall n :: n in raw <==> n in s;
    assert forall n :: n in sorted <==> n in s;
    assert raw != [] ==> raw[0] in sorted;
  }

  /** Before the first file the table holds the service scenarios. */
  lemma NothingYet(service: Option<Service>, scenarios: map<string, Scenario>)
    requires scenarios == ServiceScenarios(service)
    ensures Built(service, [], scenarios, []) && FirstWins(service, [], scenarios)
    ensures SourceRows(service, []) == if service.Some? then [RowOfService(service.value)] else []
  {
  }

  lemma BuildStep(service: Option<Service>, files: seq<File>, f: File, scenarios: map<string, Scenario>,
                  duplicates: seq<string>)
    requires Built(service, files, scenarios, duplicates) && FirstWins(service, files, scenarios)
    ensures if f.name in scenarios
            then Built(service, files + [f], scenarios, duplicates + [f.name]) &&
                 FirstWins(service, files + [f], scenarios) &&
                 SourceRows(service, files + [f]) == SourceRows(service, files)
            else Built(service, files + [f], scenarios[f.name := Normalize(f)], duplicates) &&
                 FirstWins(service, files + [f], scenarios[f.name := Normalize(f)]) &&
                 SourceRows(service, files + [f]) == SourceRows(service, files) + [RowOfFile(f)]
  {
    BuiltStep(service, files, f, scenarios, duplicates);
    FirstWinsStep(service, files, f, scenarios);
    SourceRowsStep(service, files, f, scenarios);
  }

  // ----- The order of the scenario files does not matter -----

  lemma NoRepeatPermuted(service: Option<Service>, a: seq<File>, b: seq<File>)
    requires multiset(a) == multiset(b) && NoRepeat(service, a)
    ensures NoRepeat(service, b)
  {
    var name := (f: File) => f.name;
    MapPermutes(name, a, b);
    assert Distinct(Map(name, a));
    DistinctCounts(Map(name, a));
    CountsDistinct(Map(name, b));
    forall i, j | 0 <= i < j < |b| ensures b[i].name != b[j].name {
      assert Map(name, b)[i] != Map(name, b)[j];
    }
    forall i | 0 <= i < |b| ensures b[i].name !in ServiceScenarios(service) {
      SameMembers(a, b, b[i]);
      var k :| 0 <= k < |a| && a[k] == b[i];
    }
  }

  lemma OneIdentityPermuted(service: Option<Service>, a: seq<File>, b: seq<File>)
    requires multiset(a) == multiset(b)
    requires Sources(service, a) != [] && OneIdentity(Sources(service, a))
    ensures Sources(service, b) != [] && OneIdentity(Sources(service, b))
    ensures Sources(service, b)[0] == Sources(service, a)[0]
  {
    assert |multiset(a)| == |a| && |multiset(b)| == |b|;
    var x, y := Sources(service, a), Sources(service, b);
    var o := if service.Some? then 1 else 0;
    forall k | 0 <= k < |y| ensures Identified(y[k]) && y[k] == x[0] {
      if k >= o {
        assert y[k] == SourceOf(b[k - o]);
        SameMembers(a, b, b[k - o]);
        var l :| 0 <= l < |a| && a[l] == b[k - o];
        assert x[o + l] == SourceOf(a[l]);
      } else {
        assert y[k] == x[k];
      }
    }
  }

  lemma PassingPermuted(required: seq<string>, service: Option<Service>, a: seq<File>, b: seq<File>)
    requires multiset(a) == multiset(b) && Passing(required, service, a)
    ensures Passing(required, service, b) && Sources(service, b)[0] == Sources(service, a)[0]
  {
    NoRepeatPermuted(service, a, b);
    OneIdentityPermuted(service, a, b);
    forall n | n in required ensures Shown(service, b, n) {
      assert Shown(service, a, n);
      if f :| f in a && f.name == n && Normalize(f).passed && Complete(Normalize(f)) {
        SameMembers(a, b, f);
      }
    }
  }

  /** Permuting the scenario files changes neither the verdict nor the bound identity. */
  lemma OrderIndependent(required: seq<string>, service: Option<Service>, a: seq<File>, b: seq<File>)
    requires multiset(a) == multiset(b)
    ensures Passing(required, service, a) <==> Passing(required, service, b)
    ensures Passing(required, service, a) ==> Sources(service, a)[0] == Sources(service, b)[0]
  {
    if Passing(required, service, a) {
      PassingPermuted(required, service, a, b);
    } else if Passing(required, service, b) {
      PassingPermuted(required, service, b, a);
    }
  }
}

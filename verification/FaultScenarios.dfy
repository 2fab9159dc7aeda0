/** Fault scenarios as text: printing by the level-5 audit, parsing by the audit and by the
    walk-forward acceptance script. scripts/run_level5_audit.py:19-34, 82-108, 175-177 and
    scripts/run_lean_paper_walkforward_acceptance.py:28-62, 296-323. Text is ASCII. */
module FaultScenarios {
  import opened Wrappers
  import opened Sorting
  import opened Text

  datatype Scenario = Scenario(service: string, day: nat, phase: string)

  const CHECKPOINT_PHASES: set<string> :=
    {"intent_capture", "constraint_validation", "matching", "ledger", "snapshot_report", "reconciliation"}
  const FAULT_PHASES: set<string> :=
    {"before_queue", "before_wait", "during_wait", "after_wait", "post_run"} + CHECKPOINT_PHASES
  const KNOWN_PHASES: set<string> := FAULT_PHASES + {"after_run", "default"}
  const KNOWN_SERVICES: set<string> := {"worker", "rabbitmq", "postgres", "api"}

  // ----- Characters and text -----

  predicate WordChar(c: char) {
    'a' <= c <= 'z' || 'A' <= c <= 'Z' || '0' <= c <= '9' || c == '_' || c == '-'
  }

  predicate DigitChar(c: char) {
    '0' <= c <= '9'
  }

  predicate Word(s: string) {
    s != [] && forall i :: 0 <= i < |s| ==> WordChar(s[i])
  }

  predicate Digits(s: string) {
    s != [] && forall i :: 0 <= i < |s| ==> DigitChar(s[i])
  }

  /** A word without upper-case letters. */
  predicate LowerWord(s: string) {
    Word(s) && forall i :: 0 <= i < |s| ==> !('A' <= s[i] <= 'Z')
  }

  /** The position of the first `c`, or the length. */
  function Find(s: string, c: char): (i: nat)
    ensures i <= |s| && (i < |s| ==> s[i] == c)
    ensures forall k :: 0 <= k < i ==> s[k] != c
  {
    if s == [] || s[0] == c then 0 else 1 + Find(s[1..], c)
  }

  function Split(s: string, c: char): seq<string>
    decreases |s|
  {
    var i := Find(s, c);
    if i == |s| then [s] else [s[..i]] + Split(s[i + 1..], c)
  }

  // ----- Numbers -----

  function DigitOf(n: nat): char
    requires n < 10
  {
    '0' + n as char
  }

  function Decimal(n: nat): string {
    if n < 10 then [DigitOf(n)] else Decimal(n / 10) + [DigitOf(n % 10)]
  }

  function DigitValue(c: char): nat
    requires DigitChar(c)
  {
    c as int - '0' as int
  }

  /** `int(text)` on a digit string. */
  function Number(s: string): nat
    requires forall i :: 0 <= i < |s| ==> DigitChar(s[i])
  {
    if s == [] then 0 else 10 * Number(s[..|s| - 1]) + DigitValue(s[|s| - 1])
  }

  lemma {:induction false} DecimalRoundTrip(n: nat)
    ensures Digits(Decimal(n)) && Number(Decimal(n)) == n
  {
    if n >= 10 {
      DecimalRoundTrip(n / 10);
      var d := Decimal(n);
      assert d[..|d| - 1] == Decimal(n / 10);
    } else {
      assert Decimal(n)[..0] == [];
    }
  }

  // ----- The regular expression ([A-Za-z0-9_-]+)@(\d+)(?::([A-Za-z0-9_-]+))? -----

  datatype Groups = Groups(service: string, day: string, phase: Option<string>)

  /** What `re.fullmatch` accepts, with its groups. */
  ghost predicate FullMatch(raw: string, g: Groups) {
    && Word(g.service) && Digits(g.day) && (g.phase.Some? ==> Word(g.phase.value))
    && raw == g.service + "@" + g.day + (if g.phase.Some? then ":" + g.phase.value else "")
  }

  function Match(raw: string): Option<Groups> {
    var at := Find(raw, '@');
    if at == |raw| then None
    else
      var service, rest := raw[..at], raw[at + 1..];
      var colon := Find(rest, ':');
      var day := rest[..colon];
      if !Word(service) || !Digits(day) then None
      else if colon == |rest| then Some(Groups(service, day, None))
      else if Word(rest[colon + 1..]) then Some(Groups(service, day, Some(rest[colon + 1..])))
      else None
  }

  lemma FindIn(a: string, c: char, b: string)
    requires forall i :: 0 <= i < |a| ==> a[i] != c
    ensures Find(a + [c] + b, c) == |a|
  {
    var s := a + [c] + b;
    assert s[|a|] == c;
    assert forall i :: 0 <= i < |a| ==> s[i] == a[i];
  }

  lemma FindNone(a: string, c: char)
    requires forall i :: 0 <= i < |a| ==> a[i] != c
    ensures Find(a, c) == |a|
  {
  }

  lemma CutAt(a: string, c: char, b: string)
    requires forall i :: 0 <= i < |a| ==> a[i] != c
    ensures var s := a + [c] + b; Find(s, c) == |a| && s[..|a|] == a && s[|a| + 1..] == b
  {
    FindIn(a, c, b);
  }

  /** The part of a token after the `@`. */
  function DayPart(g: Groups): string {
    if g.phase.Some? then g.day + [':'] + g.phase.value else g.day
  }

  lemma MatchedDay(g: Groups)
    requires Digits(g.day) && (g.phase.Some? ==> Word(g.phase.value))
    ensures var rest := DayPart(g); var colon := Find(rest, ':');
            && rest[..colon] == g.day
            && (colon < |rest| <==> g.phase.Some?)
            && (g.phase.Some? ==> rest[colon + 1..] == g.phase.value)
  {
    assert forall i :: 0 <= i < |g.day| ==> g.day[i] != ':';
    if g.phase.Some? {
      CutAt(g.day, ':', g.phase.value);
    } else {
      FindNone(g.day, ':');
    }
  }

  lemma FullMatchFound(raw: string, g: Groups)
    requires FullMatch(raw, g)
    ensures Match(raw) == Some(g)
  {
    var rest := DayPart(g);
    assert raw == g.service + ['@'] + rest;
    assert forall i :: 0 <= i < |g.service| ==> g.service[i] != '@';
    CutAt(g.service, '@', rest);
    MatchedDay(g);
  }

  lemma FoundFullMatch(raw: string, g: Groups)
    requires Match(raw) == Some(g)
    ensures FullMatch(raw, g)
  {
    var at := Find(raw, '@');
    var rest := raw[at + 1..];
    var colon := Find(rest, ':');
    assert raw == raw[..at] + "@" + rest;
    if colon < |rest| {
      assert rest == g.day + (":" + g.phase.value);
      assert raw == g.service + "@" + g.day + (":" + g.phase.value);
    } else {
      assert rest == g.day;
      assert raw == g.service + "@" + g.day + "";
    }
  }

  /** The parser is the regular expression: it returns groups exactly when they match. */
  lemma MatchIsFullMatch(raw: string, g: Groups)
    ensures Match(raw) == Some(g) <==> FullMatch(raw, g)
  {
    if FullMatch(raw, g) {
      FullMatchFound(raw, g);
    } else if Match(raw) == Some(g) {
      FoundFullMatch(raw, g);
    }
  }

  // ----- What characters, numbers, services and phases are -----

  lemma WordMeaning(s: string)
    ensures Word(s) <==> s != [] && forall i :: 0 <= i < |s| ==> NameChar(s[i])
    ensures Digits(s) <==> s != [] && forall i :: 0 <= i < |s| ==> s[i] in DIGITS
  {
    forall i | 0 <= i < |s|
      ensures WordChar(s[i]) <==> NameChar(s[i])
      ensures DigitChar(s[i]) <==> s[i] in DIGITS
    {
      CharMeaning(s[i]);
    }
  }

  const DIGITS: string := "0123456789"

  ghost predicate NameChar(c: char) {
    c in UPPER || c in LOWER || c in DIGITS || c == '_' || c == '-'
  }

  lemma CharMeaning(c: char)
    ensures WordChar(c) <==> NameChar(c)
    ensures DigitChar(c) <==> c in DIGITS
  {
    Alphabets();
    assert |DIGITS| == 10 && forall k :: 0 <= k < 10 ==> DIGITS[k] as int == '0' as int + k;
    if 'a' <= c <= 'z' {
      assert LOWER[c as int - 'a' as int] == c;
    }
    if 'A' <= c <= 'Z' {
      assert UPPER[c as int - 'A' as int] == c;
    }
    if '0' <= c <= '9' {
      assert DIGITS[c as int - '0' as int] == c;
    }
  }

  /** Decimal positions: each further digit multiplies by ten and adds its place in 0..9. */
  lemma NumberMeaning(s: string, k: nat)
    requires Digits(s) && k < 10
    ensures Number([DIGITS[k]]) == k && Number(s + [DIGITS[k]]) == 10 * Number(s) + k
  {
    assert |DIGITS| == 10 && forall j :: 0 <= j < 10 ==> DIGITS[j] as int == '0' as int + j;
    var t := s + [DIGITS[k]];
    assert t[..|t| - 1] == s && [DIGITS[k]][..0] == [];
    assert Number([]) == 0;
  }

  /** Printing gives no leading zero. */
  lemma {:induction false} NoLeadingZero(n: nat)
    ensures Decimal(n) != [] && (n > 0 ==> Decimal(n)[0] != '0')
  {
    if n >= 10 {
      NoLeadingZero(n / 10);
    }
  }

  ghost predicate KnownService(s: string) {
    s == "worker" || s == "rabbitmq" || s == "postgres" || s == "api"
  }

  ghost predicate CheckpointPhase(p: string) {
    || p == "intent_capture" || p == "constraint_validation" || p == "matching"
    || p == "ledger" || p == "snapshot_report" || p == "reconciliation"
  }

  /** The phases that both scripts know. */
  ghost predicate SharedPhase(p: string) {
    || p == "before_queue" || p == "before_wait" || p == "during_wait" || p == "after_wait" || p == "post_run"
    || CheckpointPhase(p)
  }

  lemma NamesMeaning(s: string, p: string)
    ensures s in KNOWN_SERVICES <==> KnownService(s)
    ensures p in CHECKPOINT_PHASES <==> CheckpointPhase(p)
    ensures p in FAULT_PHASES <==> SharedPhase(p)
    ensures p in KNOWN_PHASES <==> SharedPhase(p) || p == "after_run" || p == "default"
  {
  }

  /** The shared phase that a name in a walk-forward token stands for. */
  ghost predicate PhaseNamed(p: string, q: string) {
    || (SharedPhase(p) && q == p)
    || (p == "before_run" && q == "before_queue")
    || ((p == "beforepoll" || p == "beforepolling") && q == "before_wait")
    || ((p == "during_poll" || p == "duringpoll") && q == "during_wait")
    || (p == "afterpoll" && q == "after_wait")
    || ((p == "before_next" || p == "after_run" || p == "postrun") && q == "post_run")
  }

  lemma PhaseMeaning(p: string, q: string)
    ensures Alias(p) == q && q in FAULT_PHASES <==> PhaseNamed(p, q)
  {
    NamesMeaning("", p);
    NamesMeaning("", q);
  }

  lemma WordStrips(s: string)
    requires Word(s)
    ensures Strip(s) == s
  {
    assert !Space(s[0]) && !Space(s[|s| - 1]);
  }

  /** The phase as a token gives it; without one it is `before_queue`. */
  ghost function GivenPhase(g: Groups): string {
    if g.phase.Some? then g.phase.value else "before_queue"
  }

  /** Walk-forward token `raw` describes the scenario `s`. */
  ghost predicate Describes(raw: string, s: Scenario) {
    exists g :: FullMatch(raw, g) && s.service == Lower(g.service) &&
                s.day == Number(g.day) > 0 && PhaseNamed(Lower(GivenPhase(g)), s.phase)
  }

  /** Level-5 token `raw` names the scenario `s`. */
  ghost predicate Names(raw: string, s: Scenario) {
    exists g :: FullMatch(raw, g) && s.service == Lower(g.service) && KnownService(s.service) &&
                s.day == Number(g.day) > 0 && s.phase == Lower(GivenPhase(g)) &&
                (SharedPhase(s.phase) || s.phase == "after_run" || s.phase == "default")
  }

  lemma DefaultWord()
    ensures Word("before_queue")
  {
  }

  /** Which tokens the walk-forward script accepts, and as what. */
  lemma ParseItemMeaning(raw: string, s: Scenario)
    ensures ParseItem(raw) == Ok(s) <==> Describes(raw, s)
  {
    if Match(raw).Some? {
      var g := Match(raw).value;
      MatchIsFullMatch(raw, g);
      DefaultWord();
      WordStrips(g.service);
      WordStrips(GivenPhase(g));
      var phase := Lower(GivenPhase(g));
      PhaseMeaning(phase, Alias(phase));
      PhaseMeaning(phase, s.phase);
    }
    forall g | FullMatch(raw, g) ensures Match(raw) == Some(g) { MatchIsFullMatch(raw, g); }
  }

  /** Which tokens level 5 accepts, and as what. */
  lemma ValidateItemMeaning(raw: string, s: Scenario)
    ensures ValidateItem(raw) == Ok(s) <==> Names(raw, s)
  {
    if Match(raw).Some? {
      var g := Match(raw).value;
      MatchIsFullMatch(raw, g);
      NamesMeaning(Lower(g.service), Lower(GivenPhase(g)));
    }
    forall g | FullMatch(raw, g) ensures Match(raw) == Some(g) { MatchIsFullMatch(raw, g); }
  }

  /** What the walk-forward script says of a token it refuses. */
  lemma ParseItemError(raw: string, g: Groups)
    ensures (forall h :: !FullMatch(raw, h)) ==> ParseItem(raw) == Error("invalid_fault_scenario")
    ensures FullMatch(raw, g) && Number(g.day) == 0 ==> ParseItem(raw) == Error("fault_day_must_be_positive")
    ensures FullMatch(raw, g) && Number(g.day) > 0 && (forall q :: !PhaseNamed(Lower(GivenPhase(g)), q)) ==>
              ParseItem(raw) == Error("unsupported_fault_phase")
  {
    MatchIsFullMatch(raw, g);
    if Match(raw).Some? {
      MatchIsFullMatch(raw, Match(raw).value);
    }
    if FullMatch(raw, g) {
      DefaultWord();
      WordStrips(GivenPhase(g));
      PhaseMeaning(Lower(GivenPhase(g)), Alias(Lower(GivenPhase(g))));
    }
  }

  /** What level 5 says of a token it refuses: service first, then phase, then day. */
  lemma ValidateItemError(raw: string, g: Groups)
    ensures (forall h :: !FullMatch(raw, h)) ==> ValidateItem(raw) == Error("invalid_fault_scenario")
    ensures FullMatch(raw, g) && !KnownService(Lower(g.service)) ==>
              ValidateItem(raw) == Error("unsupported_fault_service")
    ensures var phase := Lower(GivenPhase(g));
            var phaseKnown := SharedPhase(phase) || phase == "after_run" || phase == "default";
            FullMatch(raw, g) && KnownService(Lower(g.service)) ==>
              && (!phaseKnown ==> ValidateItem(raw) == Error("unsupported_fault_phase"))
              && (phaseKnown && Number(g.day) == 0 ==> ValidateItem(raw) == Error("fault_day_must_be_positive"))
  {
    MatchIsFullMatch(raw, g);
    if Match(raw).Some? {
      MatchIsFullMatch(raw, Match(raw).value);
    }
    NamesMeaning(Lower(g.service), Lower(GivenPhase(g)));
  }

  /** Item `i` is the first that does not parse, and `code` says why. */
  ghost predicate FirstError(parse: string -> Result<Scenario>, items: seq<string>, i: int, code: string) {
    && 0 <= i < |items| && parse(items[i]) == Error(code)
    && forall j :: 0 <= j < i ==> parse(items[j]).Ok?
  }

  /** A list parses item by item, or fails with its first error. */
  lemma {:induction false} ParsedList(parse: string -> Result<Scenario>, items: seq<string>)
    ensures var r := ParseItems(parse, items);
            && (r.Ok? ==> |r.value| == |items| && forall i :: 0 <= i < |items| ==> parse(items[i]) == Ok(r.value[i]))
            && (r.Error? ==> exists i :: FirstError(parse, items, i, r.code))
  {
    if items != [] {
      var rest := items[1..];
      ParsedList(parse, rest);
      assert forall i :: 0 < i < |items| ==> items[i] == rest[i - 1];
      var r := ParseItems(parse, items);
      if parse(items[0]).Error? {
        assert FirstError(parse, items, 0, r.code);
      } else if ParseItems(parse, rest).Error? {
        var i :| FirstError(parse, rest, i, r.code);
        assert FirstError(parse, items, i + 1, r.code);
      }
    }
  }

  // ----- What splitting and dropping blanks mean -----

  /** The pieces are what lies between the commas. */
  lemma {:induction false} SplitMeaning(s: string)
    ensures Split(s, ',') != [] && Join(Split(s, ',')) == s
    ensures forall t :: t in Split(s, ',') ==> ',' !in t
    decreases |s|
  {
    var i := Find(s, ',');
    if i < |s| {
      var rest := s[i + 1..];
      SplitMeaning(rest);
      assert Split(s, ',') == [s[..i]] + Split(rest, ',');
      assert s == s[..i] + [','] + rest;
    } else {
      assert Split(s, ',') == [s];
    }
  }

  /** Blank pieces are dropped, the others kept without the blanks around them, in order. */
  lemma NonBlankMeaning(t: string, rest: seq<string>)
    ensures NonBlank([]) == []
    ensures NonBlank([t] + rest) == (if Strip(t) == "" then [] else [Strip(t)]) + NonBlank(rest)
  {
    var all := Map(Strip, [t] + rest);
    assert all[0] == Strip(t) && all[1..] == Map(Strip, rest);
  }

  /** Each value contributes its own pieces. */
  lemma RawItemsMeaning(value: string, rest: seq<string>)
    ensures RawItems([]) == [] && RawItems([value] + rest) == NonBlank(Split(value, ',')) + RawItems(rest)
  {
    assert ([value] + rest)[1..] == rest;
  }

  // ----- The walk-forward parser -----

  function Alias(phase: string): string {
    if phase == "before_run" then "before_queue"
    else if phase == "beforepoll" || phase == "beforepolling" then "before_wait"
    else if phase == "during_poll" || phase == "duringpoll" then "during_wait"
    else if phase == "afterpoll" then "after_wait"
    else if phase == "before_next" || phase == "after_run" || phase == "postrun" then "post_run"
    else phase
  }

  function NormalizePhase(value: string): string {
    Alias(Lower(Strip(value)))
  }

  function ParseItem(raw: string): Result<Scenario> {
    match Match(raw)
    case None => Error("invalid_fault_scenario")
    case Some(g) =>
      var service := Lower(Strip(g.service));
      if !Digits(g.day) then Error("invalid_fault_scenario")
      else
        var day := Number(g.day);
        var phase := NormalizePhase(if g.phase.Some? then g.phase.value else "before_queue");
        if day <= 0 then Error("fault_day_must_be_positive")
        else if phase !in FAULT_PHASES then Error("unsupported_fault_phase")
        else Ok(Scenario(service, day, phase))
  }

  function RawItems(values: seq<string>): seq<string> {
    if values == [] then [] else NonBlank(Split(values[0], ',')) + RawItems(values[1..])
  }

  /** Parse in order, stopping at the first error. */
  function ParseItems(parse: string -> Result<Scenario>, items: seq<string>): Result<seq<Scenario>> {
    if items == [] then Ok([])
    else
      match parse(items[0])
      case Error(code) => Error(code)
      case Ok(s) =>
        match ParseItems(parse, items[1..])
        case Error(code) => Error(code)
        case Ok(rest) => Ok([s] + rest)
  }

  method ParseFaultScenarios(values: seq<string>) returns (r: Result<seq<Scenario>>)
    ensures r == ParseItems(ParseItem, RawItems(values))
    ensures r.Ok? ==> |r.value| == |RawItems(values)| &&
                      forall i :: 0 <= i < |r.value| ==> Describes(RawItems(values)[i], r.value[i])
    ensures r.Error? ==> exists i :: FirstError(ParseItem, RawItems(values), i, r.code)
  {
    var raw: seq<string> := [];
    for i := 0 to |values|
      invariant raw + RawItems(values[i..]) == RawItems(values)
    {
      assert values[i..][1..] == values[i + 1..];
      raw := raw + NonBlank(Split(values[i], ','));
    }
    assert raw == RawItems(values);
    r := ParseList(ParseItem, raw);
    ParsedList(ParseItem, raw);
    if r.Ok? {
      forall i | 0 <= i < |r.value| ensures Describes(raw[i], r.value[i]) { ParseItemMeaning(raw[i], r.value[i]); }
    }
  }

  function Prefixed(done: seq<Scenario>, r: Result<seq<Scenario>>): Result<seq<Scenario>> {
    if r.Ok? then Ok(done + r.value) else r
  }

  lemma PrefixedNothing(r: Result<seq<Scenario>>)
    ensures Prefixed([], r) == r
  {
    if r.Ok? {
      assert [] + r.value == r.value;
    }
  }

  /** The loop over the items. */
  method ParseList(parse: string -> Result<Scenario>, items: seq<string>) returns (r: Result<seq<Scenario>>)
    ensures r == ParseItems(parse, items)
  {
    var scenarios: seq<Scenario> := [];
    assert items[0..] == items;
    PrefixedNothing(ParseItems(parse, items));
    for i := 0 to |items|
      invariant ParseItems(parse, items) == Prefixed(scenarios, ParseItems(parse, items[i..]))
    {
      assert items[i..][1..] == items[i + 1..];
      var p := parse(items[i]);
      if p.Error? {
        return Error(p.code);
      }
      ghost var rest := ParseItems(parse, items[i + 1..]);
      assert rest.Ok? ==> scenarios + ([p.value] + rest.value) == scenarios + [p.value] + rest.value;
      scenarios := scenarios + [p.value];
    }
    assert items[|items|..] == [] && scenarios + [] == scenarios;
    return Ok(scenarios);
  }

  // ----- The level-5 parser and printer -----

  function ValidateItem(raw: string): Result<Scenario> {
    match Match(raw)
    case None => Error("invalid_fault_scenario")
    case Some(g) =>
      var service := Lower(g.service);
      if service !in KNOWN_SERVICES then Error("unsupported_fault_service")
      else if !Digits(g.day) then Error("invalid_fault_scenario")
      else
        var day := Number(g.day);
        var phase := Lower(if g.phase.Some? then g.phase.value else "before_queue");
        if phase !in KNOWN_PHASES then Error("unsupported_fault_phase")
        else if day <= 0 then Error("fault_day_must_be_positive")
        else Ok(Scenario(service, day, phase))
  }

  method NormalizeAndValidateFaults(value: string) returns (r: Result<seq<Scenario>>)
    ensures r == ParseItems(ValidateItem, NonBlank(Split(value, ',')))
    ensures r.Ok? ==> forall s :: s in r.value ==> Known(s)
    ensures var items := NonBlank(Split(value, ','));
            && (r.Ok? ==> |r.value| == |items| && forall i :: 0 <= i < |items| ==> Names(items[i], r.value[i]))
            && (r.Error? ==> exists i :: FirstError(ValidateItem, items, i, r.code))
  {
    r := ParseList(ValidateItem, NonBlank(Split(value, ',')));
    ParsedList(ValidateItem, NonBlank(Split(value, ',')));
    if r.Ok? {
      var items := NonBlank(Split(value, ','));
      forall i | 0 <= i < |items| ensures Names(items[i], r.value[i]) { ValidateItemMeaning(items[i], r.value[i]); }
    }
    ValidatedKnown(NonBlank(Split(value, ',')));
  }

  /** What the level-5 audit lets through. */
  ghost predicate Known(s: Scenario) {
    KnownService(s.service) && s.day > 0 && (SharedPhase(s.phase) || s.phase == "after_run" || s.phase == "default")
  }

  lemma {:induction false} ValidatedKnown(items: seq<string>)
    ensures var r := ParseItems(ValidateItem, items); r.Ok? ==> forall s :: s in r.value ==> Known(s)
  {
    if items != [] {
      ValidatedKnown(items[1..]);
      if s :| ValidateItem(items[0]) == Ok(s) {
        NamesMeaning(s.service, s.phase);
      }
    }
  }

  /** `_scenario_to_args`. */
  function Token(s: Scenario): string {
    s.service + "@" + Decimal(s.day) + ":" + s.phase
  }

  // ----- Round trip -----

  lemma KnownServiceWord(s: string)
    requires s in KNOWN_SERVICES
    ensures LowerWord(s)
  {
  }

  lemma CheckpointWord(s: string)
    requires s in CHECKPOINT_PHASES
    ensures LowerWord(s)
  {
  }

  lemma KnownPhaseWord(s: string)
    requires s in KNOWN_PHASES
    ensures LowerWord(s)
  {
    if s in CHECKPOINT_PHASES {
      CheckpointWord(s);
    } else if s in {"after_run", "default"} {
    } else {
      assert s in {"before_queue", "before_wait", "during_wait", "after_wait", "post_run"};
    }
  }

  lemma LowerWordFixed(s: string)
    requires LowerWord(s)
    ensures Lower(s) == s && Strip(s) == s
  {
    assert forall i :: 0 <= i < |s| ==> LowerChar(s[i]) == s[i];
  }

  /** Printing a known scenario gives a token the regular expression takes apart again. */
  lemma KnownNames(s: Scenario)
    requires Known(s)
    ensures s.service in KNOWN_SERVICES && s.phase in KNOWN_PHASES
  {
    NamesMeaning(s.service, s.phase);
  }

  lemma TokenMatches(s: Scenario)
    requires Known(s)
    ensures Match(Token(s)) == Some(Groups(s.service, Decimal(s.day), Some(s.phase)))
    ensures Number(Decimal(s.day)) == s.day && Digits(Decimal(s.day))
  {
    KnownNames(s);
    KnownServiceWord(s.service);
    KnownPhaseWord(s.phase);
    DecimalRoundTrip(s.day);
    var g := Groups(s.service, Decimal(s.day), Some(s.phase));
    assert Token(s) == g.service + "@" + g.day + (":" + g.phase.value);
    MatchIsFullMatch(Token(s), g);
  }

  lemma AliasFixed(phase: string)
    requires phase in FAULT_PHASES
    ensures Alias(phase) == phase
  {
  }

  lemma AliasOthers()
    ensures Alias("after_run") == "post_run" && "post_run" in FAULT_PHASES && "after_run" !in FAULT_PHASES
    ensures Alias("default") == "default" && "default" !in FAULT_PHASES
  {
  }

  lemma TokenValidates(s: Scenario)
    requires Known(s)
    ensures ValidateItem(Token(s)) == Ok(s)
  {
    TokenMatches(s);
    KnownNames(s);
    KnownServiceWord(s.service);
    KnownPhaseWord(s.phase);
    LowerWordFixed(s.service);
    LowerWordFixed(s.phase);
  }

  /** The walk-forward parser on a printed scenario. */
  lemma TokenParses(s: Scenario)
    requires Known(s)
    ensures ParseItem(Token(s)) ==
            if Alias(s.phase) in FAULT_PHASES then Ok(s.(phase := Alias(s.phase))) else Error("unsupported_fault_phase")
  {
    TokenMatches(s);
    KnownNames(s);
    KnownServiceWord(s.service);
    KnownPhaseWord(s.phase);
    LowerWordFixed(s.service);
    LowerWordFixed(s.phase);
  }

  /** One printed scenario comes back unchanged exactly for the phases both scripts share;
      `after_run` comes back as `post_run` and `default` is refused. */
  lemma TokenRoundTrip(s: Scenario)
    requires Known(s)
    ensures ParseItem(Token(s)) == Ok(s) <==> SharedPhase(s.phase)
  {
    NamesMeaning(s.service, s.phase);
    TokenParses(s);
    AliasOthers();
    if s.phase in FAULT_PHASES {
      AliasFixed(s.phase);
    }
  }

  // ----- Lists of tokens -----

  /** Text without commas and without surrounding spaces. */
  predicate Plain(t: string) {
    t != [] && !Space(t[0]) && !Space(t[|t| - 1]) && forall i :: 0 <= i < |t| ==> t[i] != ','
  }

  lemma TokenPlain(s: Scenario)
    requires Known(s)
    ensures Plain(Token(s))
  {
    KnownNames(s);
    KnownServiceWord(s.service);
    KnownPhaseWord(s.phase);
    DecimalRoundTrip(s.day);
    var t, n, m := Token(s), |s.service|, |Decimal(s.day)|;
    assert t[0] == s.service[0] && t[|t| - 1] == s.phase[|s.phase| - 1];
    forall i | 0 <= i < |t| ensures t[i] != ',' {
      if i < n {
        assert t[i] == s.service[i];
      } else if n < i < n + 1 + m {
        assert t[i] == Decimal(s.day)[i - n - 1];
      } else if i > n + 1 + m {
        assert t[i] == s.phase[i - n - m - 2];
      }
    }
  }

  lemma PlainItem(t: string)
    requires Plain(t)
    ensures Strip(t) == t && Split(t, ',') == [t] && NonBlank([t]) == [t]
  {
    FindNone(t, ',');
    assert Map(Strip, [t]) == [t];
    assert [t][1..] == [];
    assert Filter(NotEmpty, [t]) == [t] + Filter(NotEmpty, []);
  }

  lemma SplitCons(a: string, b: string)
    requires forall i :: 0 <= i < |a| ==> a[i] != ','
    ensures Split(a + [','] + b, ',') == [a] + Split(b, ',')
  {
    CutAt(a, ',', b);
  }

  lemma RawCons(t: string, rest: seq<string>)
    requires Plain(t)
    ensures RawItems([t] + rest) == [t] + RawItems(rest)
  {
    PlainItem(t);
    assert ([t] + rest)[1..] == rest;
  }

  lemma MapCons(l: seq<Scenario>)
    requires l != []
    ensures Map(Token, l) == [Token(l[0])] + Map(Token, l[1..])
  {
  }

  lemma {:induction false} RawTokens(l: seq<Scenario>)
    requires forall s :: s in l ==> Known(s)
    ensures RawItems(Map(Token, l)) == Map(Token, l)
  {
    if l != [] {
      assert l[0] in l && forall s :: s in l[1..] ==> s in l;
      RawTokens(l[1..]);
      TokenPlain(l[0]);
      MapCons(l);
      RawCons(Token(l[0]), Map(Token, l[1..]));
    }
  }

  lemma {:induction false} ParsedTokens(parse: string -> Result<Scenario>, l: seq<Scenario>)
    ensures ParseItems(parse, Map(Token, l)) == Ok(l) <==> forall s :: s in l ==> parse(Token(s)) == Ok(s)
  {
    if l != [] {
      ParsedTokens(parse, l[1..]);
      assert Map(Token, l)[1..] == Map(Token, l[1..]);
      assert l == [l[0]] + l[1..];
    }
  }

  /** Printing then parsing, for every list the level-5 audit lets through: the walk-forward script
      reads back the same list if and only if every phase is one it shares. */
  lemma PrintParseRoundTrip(l: seq<Scenario>)
    requires forall s :: s in l ==> Known(s)
    ensures ParseItems(ParseItem, RawItems(Map(Token, l))) == Ok(l) <==> forall s :: s in l ==> SharedPhase(s.phase)
  {
    RawTokens(l);
    ParsedTokens(ParseItem, l);
    forall s | s in l ensures ParseItem(Token(s)) == Ok(s) <==> SharedPhase(s.phase) {
      TokenRoundTrip(s);
    }
  }

  function Join(tokens: seq<string>): string {
    if tokens == [] then "" else if |tokens| == 1 then tokens[0] else tokens[0] + [','] + Join(tokens[1..])
  }

  lemma SplitPrepend(t: string, rest: string, parts: seq<string>)
    requires Plain(t) && Split(rest, ',') == parts
    ensures Split(t + [','] + rest, ',') == [t] + parts
  {
    SplitCons(t, rest);
  }

  lemma {:induction false} SplitJoin(tokens: seq<string>)
    requires tokens != [] && forall t :: t in tokens ==> Plain(t)
    ensures Split(Join(tokens), ',') == tokens
  {
    var t, rest := tokens[0], tokens[1..];
    assert t in tokens && tokens == [t] + rest;
    if rest == [] {
      PlainItem(t);
    } else {
      assert forall t :: t in rest ==> t in tokens;
      SplitJoin(rest);
      SplitPrepend(t, Join(rest), rest);
    }
  }

  lemma {:induction false} NonBlankPlain(tokens: seq<string>)
    requires forall t :: t in tokens ==> Plain(t)
    ensures NonBlank(tokens) == tokens
  {
    if tokens != [] {
      assert tokens[0] in tokens && forall t :: t in tokens[1..] ==> t in tokens;
      NonBlankPlain(tokens[1..]);
      PlainItem(tokens[0]);
      assert Map(Strip, tokens)[1..] == Map(Strip, tokens[1..]);
      assert tokens == [tokens[0]] + tokens[1..];
    }
  }

  /** The level-5 audit reads back every list it could have accepted, joined by commas. */
  lemma AuditRoundTrip(l: seq<Scenario>)
    requires forall s :: s in l ==> Known(s)
    ensures ParseItems(ValidateItem, NonBlank(Split(Join(Map(Token, l)), ','))) == Ok(l)
  {
    var tokens := Map(Token, l);
    if l == [] {
      FindNone("", ',');
      assert Split("", ',') == [""];
      assert Map(Strip, [""]) == [""];
      assert [""][1..] == [];
      assert NonBlank([""]) == Filter(NotEmpty, []);
    } else {
      forall t | t in tokens ensures Plain(t) {
        var i :| 0 <= i < |tokens| && tokens[i] == t;
        assert l[i] in l;
        TokenPlain(l[i]);
      }
      SplitJoin(tokens);
      NonBlankPlain(tokens);
      ParsedTokens(ValidateItem, l);
      forall s | s in l ensures ValidateItem(Token(s)) == Ok(s) {
        TokenValidates(s);
      }
    }
  }
}

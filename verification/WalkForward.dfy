/** The walk-forward fold validator, scripts/run_level4_audit.py:275-389.
    Dates are day numbers, absent when they do not parse; a fold that does not parse is zero. */
module WalkForward {
  import opened Wrappers
  import opened Sorting

  datatype Bucket = Bucket(project: string, symbol: string, candidate: string)

  datatype Item = Item(fold: int, bucket: Bucket, phase: string, mode: string, start: Option<int>, end: Option<int>)

  datatype Key = Key(fold: int, bucket: Bucket)

  datatype Candidate = Candidate(selected: bool, hasSharpe: bool)

  datatype WindowEvidence = WindowEvidence(
    fold: int, leakage: string, selectionFrozen: bool, candidates: seq<Candidate>,
    oosStatus: string, oosFingerprinted: bool)

  datatype Failure =
    | WindowReversed | MissingFolds | FoldGap | FoldsBelowMin | ModeNotMarked
    | FoldPhaseInvalid(fold: int) | PhaseMultiplicity(fold: int)
    | TrainValidationNonsequential(fold: int) | ValidationOosNonsequential(fold: int)
    | ValidationReversed(fold: int) | OosReversed(fold: int)
    | EvidenceMissing | EvidenceWindowGap | LeakageNotAllow(fold: int) | SelectionNotFrozen(fold: int)
    | SelectedCandidateCount(fold: int) | CandidateMetricsIncomplete(fold: int)
    | OosNotCompleted(fold: int) | OosFingerprintMissing(fold: int)

  datatype Warning = InvalidWindowFormat | ParamParse | SummaryFoldGap

  /** What the validator reads of the configuration: the train, test and step years that parse, and
      the folds that the stored summary lists, if it is a list. */
  datatype Config = Config(
    trainYears: Option<int>, testYears: Option<int>, stepYears: Option<int>, summaryFolds: Option<set<int>>)

  function KeyOf(i: Item): Key {
    Key(i.fold, i.bucket)
  }

  /** Items with a positive fold are grouped. */
  function InKey(k: Key): Item -> bool {
    (i: Item) => i.fold > 0 && KeyOf(i) == k
  }

  function Group(items: seq<Item>, k: Key): seq<Item> {
    Filter(InKey(k), items)
  }

  function Folds(items: seq<Item>): set<int> {
    set i | i in items && i.fold > 0 :: i.fold
  }

  predicate Parses(i: Item) {
    i.start.Some? && i.end.Some?
  }

  // ----- The specification -----

  ghost predicate NotReversed(i: Item) {
    i.start.Some? && i.end.Some? ==> i.start.value <= i.end.value
  }

  ghost predicate Contiguous(folds: set<int>) {
    forall a, b, k :: a in folds && b in folds && a <= k <= b ==> k in folds
  }

  function PhaseIs(phase: string): Item -> bool {
    (i: Item) => i.phase == phase
  }

  const PHASES: set<string> := {"train", "validation", "oos"}

  /** A group holds one window of each phase and, if all six dates parse, they are in sequence. */
  ghost predicate GroupOk(g: seq<Item>) {
    && (forall i :: i in g ==> i.phase == "train" || i.phase == "validation" || i.phase == "oos")
    && |Filter(PhaseIs("train"), g)| == 1 && |Filter(PhaseIs("validation"), g)| == 1 && |Filter(PhaseIs("oos"), g)| == 1
    && InTurn(Filter(PhaseIs("train"), g)[0], Filter(PhaseIs("validation"), g)[0], Filter(PhaseIs("oos"), g)[0])
  }

  /** If all six dates parse, each window ends before the next begins and no later one is reversed. */
  ghost predicate InTurn(t: Item, v: Item, o: Item) {
    t.start.Some? && t.end.Some? && v.start.Some? && v.end.Some? && o.start.Some? && o.end.Some? ==>
      t.end.value < v.start.value && v.end.value < o.start.value &&
      v.start.value <= v.end.value && o.start.value <= o.end.value
  }

  /** Exactly one candidate was selected, and every candidate has its metrics. */
  predicate CandidatesOk(candidates: seq<Candidate>) {
    |Filter((c: Candidate) => c.selected, candidates)| == 1 && forall c :: c in candidates ==> c.hasSharpe
  }

  predicate WindowOk(w: WindowEvidence) {
    && w.leakage == "ALLOW" && w.selectionFrozen && CandidatesOk(w.candidates)
    && w.oosStatus == "COMPLETED" && w.oosFingerprinted
  }

  function Max(a: int, b: int): int {
    if a >= b then a else b
  }

  ghost predicate NoneReversed(items: seq<Item>) {
    forall i :: i in items ==> NotReversed(i)
  }

  ghost predicate AllParse(items: seq<Item>) {
    forall i :: i in items ==> i.start.Some? && i.end.Some?
  }

  predicate Marked(items: seq<Item>) {
    exists i :: i in items && i.mode == "walk_forward"
  }

  /** The three year parameters parse to numbers other than zero. */
  predicate ParamsOk(c: Config) {
    forall y :: y in [c.trainYears, c.testYears, c.stepYears] ==> y.Some? && y.value != 0
  }

  /** A stored summary covers every fold. */
  predicate SummaryOk(c: Config, folds: set<int>) {
    c.summaryFolds.Some? ==> folds <= c.summaryFolds.value
  }

  /** The items of the same fold and bucket as `i`. */
  ghost function Companions(items: seq<Item>, i: Item): seq<Item> {
    Filter((j: Item) => j.fold == i.fold && j.bucket == i.bucket, items)
  }

  lemma CompanionsGrouped(items: seq<Item>, i: Item)
    requires i.fold > 0
    ensures Group(items, KeyOf(i)) == Companions(items, i)
  {
    FilterSame(InKey(KeyOf(i)), (j: Item) => j.fold == i.fold && j.bucket == i.bucket, items);
  }

  ghost predicate GroupsOk(items: seq<Item>) {
    forall i :: i in items && i.fold > 0 ==> GroupOk(Companions(items, i))
  }

  ghost predicate YearsOk(c: Config) {
    && c.trainYears.Some? && c.trainYears.value != 0
    && c.testYears.Some? && c.testYears.value != 0
    && c.stepYears.Some? && c.stepYears.value != 0
  }

  /** The train, test and step years are numbers other than zero, and a stored summary lists every
      fold. */
  ghost predicate ConfigOk(c: Config, folds: set<int>) {
    YearsOk(c) && (c.summaryFolds.Some? ==> folds <= c.summaryFolds.value)
  }

  lemma ConfigMeaning(c: Config, folds: set<int>)
    ensures ParamsOk(c) <==> YearsOk(c)
    ensures ParamsOk(c) && SummaryOk(c, folds) <==> ConfigOk(c, folds)
  {
    var years := [c.trainYears, c.testYears, c.stepYears];
    assert c.trainYears in years && c.testYears in years && c.stepYears in years;
    forall y | y in years ensures y == c.trainYears || y == c.testYears || y == c.stepYears {}
  }

  /** There are folds, without gaps and as many as asked for, and some item is marked. */
  ghost predicate FoldsOk(items: seq<Item>, folds: set<int>, minFolds: int) {
    && folds != {} && Contiguous(folds) && |folds| >= minFolds
    && exists i :: i in items && i.mode == "walk_forward"
  }

  ghost predicate ItemsOk(items: seq<Item>, minFolds: int) {
    NoneReversed(items) && FoldsOk(items, Folds(items), minFolds) && GroupsOk(items)
  }

  ghost predicate EvidenceOk(evidence: Option<seq<WindowEvidence>>, foldCount: nat) {
    evidence.Some? && |evidence.value| >= foldCount && forall w :: w in evidence.value ==> WindowOk(w)
  }

  // ----- Which failure is reported when -----

  /** All three phases occur, and no other. */
  ghost predicate Covers(g: seq<Item>) {
    && (forall i :: i in g ==> i.phase == "train" || i.phase == "validation" || i.phase == "oos")
    && (exists i :: i in g && i.phase == "train")
    && (exists i :: i in g && i.phase == "validation")
    && (exists i :: i in g && i.phase == "oos")
  }

  ghost predicate OneEach(g: seq<Item>) {
    |Filter(PhaseIs("train"), g)| == 1 && |Filter(PhaseIs("validation"), g)| == 1 && |Filter(PhaseIs("oos"), g)| == 1
  }

  /** What is wrong with a train, a validation and an out-of-sample window whose dates all parse. */
  ghost predicate AboutSequence(f: Failure, fold: int, t: Item, v: Item, o: Item) {
    && t.start.Some? && t.end.Some? && v.start.Some? && v.end.Some? && o.start.Some? && o.end.Some?
    && match f
       case TrainValidationNonsequential(n) => n == fold && v.start.value <= t.end.value
       case ValidationOosNonsequential(n) => n == fold && o.start.value <= v.end.value
       case ValidationReversed(n) => n == fold && v.end.value < v.start.value
       case OosReversed(n) => n == fold && o.end.value < o.start.value
       case _ => false
  }

  /** What is wrong with a group: its phases, else their number, else their sequence. */
  ghost predicate AboutGroup(f: Failure, fold: int, g: seq<Item>) {
    if !Covers(g) then f == FoldPhaseInvalid(fold)
    else if !OneEach(g) then f == PhaseMultiplicity(fold)
    else
      AboutSequence(f, fold, Filter(PhaseIs("train"), g)[0], Filter(PhaseIs("validation"), g)[0],
                    Filter(PhaseIs("oos"), g)[0])
  }

  ghost predicate AboutItem(f: Failure, i: Item) {
    f == WindowReversed && i.start.Some? && i.end.Some? && i.end.value < i.start.value
  }

  ghost predicate AboutSomeItem(f: Failure, items: seq<Item>) {
    exists i :: i in items && AboutItem(f, i)
  }

  ghost predicate AboutSomeGroup(f: Failure, items: seq<Item>) {
    exists i :: i in items && i.fold > 0 && AboutGroup(f, i.fold, Companions(items, i))
  }

  ghost predicate AboutFolds(f: Failure, items: seq<Item>, folds: set<int>, minFolds: int) {
    match f
    case FoldGap => !Contiguous(folds)
    case FoldsBelowMin => |folds| < 1 || |folds| < minFolds
    case ModeNotMarked => forall i :: i in items ==> i.mode != "walk_forward"
    case _ => false
  }

  ghost predicate AboutCandidates(f: Failure, fold: int, candidates: seq<Candidate>) {
    match f
    case SelectedCandidateCount(n) => n == fold && |Filter((c: Candidate) => c.selected, candidates)| != 1
    case CandidateMetricsIncomplete(n) => n == fold && exists c :: c in candidates && !c.hasSharpe
    case _ => false
  }

  ghost predicate AboutWindow(f: Failure, w: WindowEvidence) {
    match f
    case LeakageNotAllow(n) => n == w.fold && w.leakage != "ALLOW"
    case SelectionNotFrozen(n) => n == w.fold && !w.selectionFrozen
    case OosNotCompleted(n) => n == w.fold && w.oosStatus != "COMPLETED"
    case OosFingerprintMissing(n) => n == w.fold && !w.oosFingerprinted
    case _ => AboutCandidates(f, w.fold, w.candidates)
  }

  ghost predicate AboutEvidence(f: Failure, evidence: Option<seq<WindowEvidence>>, foldCount: nat) {
    match evidence
    case None => f == EvidenceMissing
    case Some(windows) =>
      || (f == EvidenceWindowGap && |windows| < foldCount)
      || exists w :: w in windows && AboutWindow(f, w)
  }

  /** The failures that the items and the evidence give reason for. Without folds nothing else is
      looked at. */
  ghost predicate Justified(f: Failure, items: seq<Item>, minFolds: int, evidence: Option<seq<WindowEvidence>>) {
    || AboutSomeItem(f, items)
    || (Folds(items) == {} && f == MissingFolds)
    || (Folds(items) != {} &&
        (|| AboutFolds(f, items, Folds(items), minFolds)
         || AboutSomeGroup(f, items)
         || AboutEvidence(f, evidence, |Folds(items)|)))
  }

  ghost predicate AboutConfig(w: Warning, c: Config, folds: set<int>) {
    match w
    case ParamParse => !YearsOk(c)
    case SummaryFoldGap => c.summaryFolds.Some? && !(folds <= c.summaryFolds.value)
    case InvalidWindowFormat => false
  }

  // ----- The validator -----

  class Audit {
    var failures: seq<Failure>
    var warnings: seq<Warning>

    constructor ()
      ensures failures == [] && warnings == []
    {
      failures, warnings := [], [];
    }

    /** Lines 292-297: the window of one item. */
    method CheckItem(item: Item)
      modifies this
      ensures old(failures) <= failures && old(warnings) <= warnings
      ensures failures == old(failures) <==> NotReversed(item)
      ensures forall f :: f in failures <==> f in old(failures) || AboutItem(f, item)
      ensures warnings == old(warnings) <==> Parses(item)
      ensures forall w :: w in warnings <==> w in old(warnings) || (w == InvalidWindowFormat && !Parses(item))
    {
      if item.start.None? || item.end.None? {
        warnings := warnings + [InvalidWindowFormat];
        return;
      }
      if item.end.value < item.start.value {
        failures := failures + [WindowReversed];
      }
    }

    /** Lines 283-297: grouping, in order of first appearance, and reversed windows. */
    method Scan(items: seq<Item>) returns (keys: seq<Key>, grouped: map<Key, seq<Item>>)
      modifies this
      ensures old(failures) <= failures && old(warnings) <= warnings
      ensures failures == old(failures) <==> NoneReversed(items)
      ensures forall f :: f in failures <==> f in old(failures) || AboutSomeItem(f, items)
      ensures warnings == old(warnings) <==> AllParse(items)
      ensures forall w :: w in warnings <==> w in old(warnings) || (w == InvalidWindowFormat && !AllParse(items))
      ensures Grouped(items, keys, grouped)
    {
      keys, grouped := [], map[];
      for n := 0 to |items|
        invariant old(failures) <= failures && old(warnings) <= warnings
        invariant failures == old(failures) <==> forall m :: 0 <= m < n ==> NotReversed(items[m])
        invariant forall f :: f in failures <==>
                    f in old(failures) || exists m :: 0 <= m < n && AboutItem(f, items[m])
        invariant warnings == old(warnings) <==> forall m :: 0 <= m < n ==> Parses(items[m])
        invariant forall w :: w in warnings <==>
                    w in old(warnings) || (w == InvalidWindowFormat && exists m :: 0 <= m < n && !Parses(items[m]))
        invariant Grouped(items[..n], keys, grouped)
      {
        var item := items[n];
        GroupedStep(items[..n], item, keys, grouped);
        assert items[..n + 1] == items[..n] + [item];
        if item.fold > 0 {
          if KeyOf(item) !in grouped {
            keys := keys + [KeyOf(item)];
            grouped := grouped[KeyOf(item) := [item]];
          } else {
            grouped := grouped[KeyOf(item) := grouped[KeyOf(item)] + [item]];
          }
        }
        CheckItem(item);
      }
      assert items[..|items|] == items;
    }

    /** Lines 303-316. */
    method CheckFolds(items: seq<Item>, keys: seq<Key>, folds: set<int>, minFolds: int)
      requires keys != [] && folds == (set k | k in keys :: k.fold)
      modifies this`failures
      ensures old(failures) <= failures
      ensures failures == old(failures) <==> FoldsOk(items, folds, minFolds)
      ensures forall f :: f in failures <==> f in old(failures) || AboutFolds(f, items, folds, minFolds)
    {
      var low, high := MinMax(keys);
      var missing := set k | low <= k <= high && k !in folds;
      if missing != {} {
        failures := failures + [FoldGap];
        var k :| k in missing;
        assert low in folds && high in folds && low <= k <= high;
      }
      if |folds| < Max(1, minFolds) {
        failures := failures + [FoldsBelowMin];
      }
      if !Marked(items) {
        failures := failures + [ModeNotMarked];
      }
      assert missing == {} ==> Contiguous(folds) by {
        forall a, b, k | a in folds && b in folds && a <= k <= b && missing == {} ensures k in folds {
          assert low <= k <= high;
          assert k !in missing;
        }
      }
    }

    /** Lines 318-354, for one group. */
    method CheckGroup(fold: int, g: seq<Item>)
      modifies this
      ensures old(failures) <= failures && warnings == old(warnings)
      ensures failures == old(failures) <==> GroupOk(g)
      ensures forall f :: f in failures <==> f in old(failures) || AboutGroup(f, fold, g)
    {
      var phases := set i | i in g :: i.phase;
      var train := Filter(PhaseIs("train"), g);
      var validation := Filter(PhaseIs("validation"), g);
      var oos := Filter(PhaseIs("oos"), g);
      PhasesCovered(g);
      if phases != PHASES {
        failures := failures + [FoldPhaseInvalid(fold)];
        return;
      }
      if |train| != 1 || |validation| != 1 || |oos| != 1 {
        failures := failures + [PhaseMultiplicity(fold)];
        return;
      }
      var t, v, o := train[0], validation[0], oos[0];
      CheckSequence(fold, t, v, o);
    }

    /** Lines 336-354: the windows of a group with one of each phase. */
    method CheckSequence(fold: int, t: Item, v: Item, o: Item)
      modifies this
      ensures old(failures) <= failures && warnings == old(warnings)
      ensures failures == old(failures) <==> InTurn(t, v, o)
      ensures forall f :: f in failures <==> f in old(failures) || AboutSequence(f, fold, t, v, o)
    {
      if !Parses(t) || !Parses(v) || !Parses(o) {
        return;
      }
      if t.end.value >= v.start.value {
        failures := failures + [TrainValidationNonsequential(fold)];
      }
      if v.end.value >= o.start.value {
        failures := failures + [ValidationOosNonsequential(fold)];
      }
      if v.end.value < v.start.value {
        failures := failures + [ValidationReversed(fold)];
      }
      if o.end.value < o.start.value {
        failures := failures + [OosReversed(fold)];
      }
    }

    /** Lines 371-389, for one window of evidence. */
    method CheckWindow(w: WindowEvidence)
      modifies this
      ensures old(failures) <= failures && warnings == old(warnings)
      ensures failures == old(failures) <==> WindowOk(w)
      ensures forall f :: f in failures <==> f in old(failures) || AboutWindow(f, w)
    {
      if w.leakage != "ALLOW" {
        failures := failures + [LeakageNotAllow(w.fold)];
      }
      if !w.selectionFrozen {
        failures := failures + [SelectionNotFrozen(w.fold)];
      }
      CheckCandidates(w.fold, w.candidates);
      if w.oosStatus != "COMPLETED" {
        failures := failures + [OosNotCompleted(w.fold)];
      }
      if !w.oosFingerprinted {
        failures := failures + [OosFingerprintMissing(w.fold)];
      }
    }

    method CheckCandidates(fold: int, candidates: seq<Candidate>)
      modifies this
      ensures old(failures) <= failures && warnings == old(warnings)
      ensures failures == old(failures) <==> CandidatesOk(candidates)
      ensures forall f :: f in failures <==> f in old(failures) || AboutCandidates(f, fold, candidates)
    {
      if |Filter((c: Candidate) => c.selected, candidates)| != 1 {
        failures := failures + [SelectedCandidateCount(fold)];
      }
      if exists c :: c in candidates && !c.hasSharpe {
        failures := failures + [CandidateMetricsIncomplete(fold)];
      }
    }

    /** The loop over the groups. */
    method CheckGroups(keys: seq<Key>, grouped: map<Key, seq<Item>>)
      requires forall n :: 0 <= n < |keys| ==> keys[n] in grouped
      modifies this
      ensures old(failures) <= failures && warnings == old(warnings)
      ensures failures == old(failures) <==> AllGroupsOk(keys, grouped)
      ensures forall f :: f in failures <==> f in old(failures) || AboutGroups(f, keys, grouped, |keys|)
    {
      for n := 0 to |keys|
        invariant old(failures) <= failures && warnings == old(warnings)
        invariant failures == old(failures) <==> forall m :: 0 <= m < n ==> GroupOk(grouped[keys[m]])
        invariant forall f :: f in failures <==> f in old(failures) || AboutGroups(f, keys, grouped, n)
      {
        CheckGroup(keys[n].fold, grouped[keys[n]]);
      }
    }

    /** Lines 364-389. */
    method CheckEvidence(evidence: Option<seq<WindowEvidence>>, foldCount: nat)
      modifies this
      ensures old(failures) <= failures && warnings == old(warnings)
      ensures failures == old(failures) <==> EvidenceOk(evidence, foldCount)
      ensures forall f :: f in failures <==> f in old(failures) || AboutEvidence(f, evidence, foldCount)
    {
      if evidence.None? {
        failures := failures + [EvidenceMissing];
        return;
      }
      var windows := evidence.value;
      if |windows| < foldCount {
        failures := failures + [EvidenceWindowGap];
      }
      for n := 0 to |windows|
        invariant old(failures) <= failures && warnings == old(warnings)
        invariant failures == old(failures) <==>
                    |windows| >= foldCount && forall m :: 0 <= m < n ==> WindowOk(windows[m])
        invariant forall f :: f in failures <==>
                    || f in old(failures) || (f == EvidenceWindowGap && |windows| < foldCount)
                    || exists m :: 0 <= m < n && AboutWindow(f, windows[m])
      {
        CheckWindow(windows[n]);
      }
    }

    /** Lines 311-313 and 356-362. */
    method CheckConfig(config: Config, folds: set<int>)
      modifies this`warnings
      ensures old(warnings) <= warnings
      ensures warnings == old(warnings) <==> ConfigOk(config, folds)
      ensures forall w :: w in warnings <==>
                w in old(warnings) || AboutConfig(w, config, folds)
    {
      ConfigMeaning(config, folds);
      if !ParamsOk(config) {
        warnings := warnings + [ParamParse];
      }
      if config.summaryFolds.Some? && !(folds <= config.summaryFolds.value) {
        warnings := warnings + [SummaryFoldGap];
      }
    }

    /** `_validate_walk_forward`: no failure is added exactly when the items and the evidence are in
        order, and no warning exactly when every window parses and, unless there are no folds at
        all, the year parameters parse and a stored summary covers every fold. */
    method Validate(items: seq<Item>, config: Config, minFolds: int, evidence: Option<seq<WindowEvidence>>)
      modifies this
      ensures old(failures) <= failures && old(warnings) <= warnings
      ensures failures == old(failures) <==> ItemsOk(items, minFolds) && EvidenceOk(evidence, |Folds(items)|)
      ensures forall f :: f in failures <==> f in old(failures) || Justified(f, items, minFolds, evidence)
      ensures warnings == old(warnings) <==>
              AllParse(items) && (Folds(items) != {} ==> ConfigOk(config, Folds(items)))
      ensures forall w :: w in warnings <==>
                || w in old(warnings) || (w == InvalidWindowFormat && !AllParse(items))
                || (Folds(items) != {} && AboutConfig(w, config, Folds(items)))
    {
      var keys, grouped := Scan(items);
      FoldsOfKeys(items, keys, grouped);
      if keys == [] {
        failures := failures + [MissingFolds];
        return;
      }
      var folds := set k | k in keys :: k.fold;
      CheckFolds(items, keys, folds, minFolds);
      CheckConfig(config, folds);
      GroupsChecked(items, keys, grouped);
      GroupsJustified(items, keys, grouped);
      CheckGroups(keys, grouped);
      CheckEvidence(evidence, |folds|);
    }
  }

  // ----- Supporting facts -----

  /** `grouped` holds the group of every key that occurs, and `keys` lists those keys. */
  ghost predicate Grouped(items: seq<Item>, keys: seq<Key>, grouped: map<Key, seq<Item>>) {
    && (forall k :: k in keys <==> k in grouped)
    && (forall k :: k in grouped ==> grouped[k] == Group(items, k))
    && (forall k :: k in grouped <==> Group(items, k) != [])
  }

  lemma GroupStep(items: seq<Item>, item: Item, k: Key)
    ensures Group(items + [item], k) == Group(items, k) + (if item.fold > 0 && KeyOf(item) == k then [item] else [])
  {
    FilterSplits(InKey(k), items, [item]);
    assert [item][1..] == [];
  }

  lemma GroupedStep(items: seq<Item>, item: Item, keys: seq<Key>, grouped: map<Key, seq<Item>>)
    requires Grouped(items, keys, grouped)
    ensures item.fold <= 0 ==> Grouped(items + [item], keys, grouped)
    ensures item.fold > 0 && KeyOf(item) !in grouped ==>
              Grouped(items + [item], keys + [KeyOf(item)], grouped[KeyOf(item) := [item]])
    ensures item.fold > 0 && KeyOf(item) in grouped ==>
              Grouped(items + [item], keys, grouped[KeyOf(item) := grouped[KeyOf(item)] + [item]])
  {
    forall k
      ensures Group(items + [item], k) == Group(items, k) + (if item.fold > 0 && KeyOf(item) == k then [item] else [])
    {
      GroupStep(items, item, k);
    }
    assert forall k :: Group(items, k) + [] == Group(items, k);
    assert KeyOf(item) !in grouped ==> Group(items, KeyOf(item)) + [item] == [item];
  }

  /** A key occurs exactly when some item with a positive fold has it. */
  lemma KeyOccurs(items: seq<Item>, k: Key)
    ensures Group(items, k) != [] <==> exists i :: i in items && i.fold > 0 && KeyOf(i) == k
  {
    FilterMembers(InKey(k), items);
    if Group(items, k) != [] {
      assert Group(items, k)[0] in Group(items, k);
    }
  }

  lemma FoldsOfKeys(items: seq<Item>, keys: seq<Key>, grouped: map<Key, seq<Item>>)
    requires Grouped(items, keys, grouped)
    ensures (set k | k in keys :: k.fold) == Folds(items)
    ensures keys == [] <==> Folds(items) == {}
  {
    var folds := set k | k in keys :: k.fold;
    forall f ensures f in folds <==> f in Folds(items) {
      if f in Folds(items) {
        var i :| i in items && i.fold > 0 && i.fold == f;
        KeyOccurs(items, KeyOf(i));
        assert KeyOf(i) in keys;
      }
      if f in folds {
        var k :| k in keys && k.fold == f;
        KeyOccurs(items, k);
      }
    }
    assert folds == Folds(items);
    if keys != [] {
      assert keys[0] in keys;
      assert keys[0].fold in folds;
    }
  }

  lemma KeyOfItem(items: seq<Item>, keys: seq<Key>, grouped: map<Key, seq<Item>>, i: Item) returns (n: nat)
    requires Grouped(items, keys, grouped) && i in items && i.fold > 0
    ensures n < |keys| && keys[n].fold == i.fold
    ensures keys[n] in grouped && grouped[keys[n]] == Companions(items, i)
  {
    KeyOccurs(items, KeyOf(i));
    CompanionsGrouped(items, i);
    assert KeyOf(i) in keys;
    n :| 0 <= n < |keys| && keys[n] == KeyOf(i);
  }

  lemma ItemOfKey(items: seq<Item>, keys: seq<Key>, grouped: map<Key, seq<Item>>, n: nat) returns (i: Item)
    requires Grouped(items, keys, grouped) && n < |keys|
    ensures i in items && i.fold > 0 && i.fold == keys[n].fold
    ensures keys[n] in grouped && grouped[keys[n]] == Companions(items, i)
  {
    assert keys[n] in keys;
    KeyOccurs(items, keys[n]);
    i :| i in items && i.fold > 0 && KeyOf(i) == keys[n];
    CompanionsGrouped(items, i);
  }

  lemma KeysGrouped(items: seq<Item>, keys: seq<Key>, grouped: map<Key, seq<Item>>)
    requires Grouped(items, keys, grouped)
    ensures forall n :: 0 <= n < |keys| ==> keys[n] in grouped
  {
    forall n | 0 <= n < |keys| ensures keys[n] in grouped {
      assert keys[n] in keys;
    }
  }

  lemma GroupsChecked(items: seq<Item>, keys: seq<Key>, grouped: map<Key, seq<Item>>)
    requires Grouped(items, keys, grouped)
    ensures forall n :: 0 <= n < |keys| ==> keys[n] in grouped
    ensures AllGroupsOk(keys, grouped) <==> GroupsOk(items)
  {
    KeysGrouped(items, keys, grouped);
    if AllGroupsOk(keys, grouped) {
      forall i | i in items && i.fold > 0 ensures GroupOk(Companions(items, i)) {
        var n := KeyOfItem(items, keys, grouped, i);
        assert GroupOk(grouped[keys[n]]);
      }
    }
    if GroupsOk(items) {
      forall n | 0 <= n < |keys| ensures GroupOk(grouped[keys[n]]) {
        var i := ItemOfKey(items, keys, grouped, n);
      }
    }
  }

  /** What is wrong with one of the first `n` groups. */
  ghost predicate AboutGroups(f: Failure, keys: seq<Key>, grouped: map<Key, seq<Item>>, n: nat)
    requires n <= |keys| && forall m :: 0 <= m < |keys| ==> keys[m] in grouped
  {
    exists m :: 0 <= m < n && AboutGroup(f, keys[m].fold, grouped[keys[m]])
  }

  lemma KeyJustified(items: seq<Item>, keys: seq<Key>, grouped: map<Key, seq<Item>>, f: Failure, n: nat)
    requires Grouped(items, keys, grouped) && n < |keys| && keys[n] in grouped
    requires AboutGroup(f, keys[n].fold, grouped[keys[n]])
    ensures AboutSomeGroup(f, items)
  {
    var i := ItemOfKey(items, keys, grouped, n);
  }

  lemma ItemJustified(items: seq<Item>, keys: seq<Key>, grouped: map<Key, seq<Item>>, f: Failure, i: Item)
    requires Grouped(items, keys, grouped) && forall m :: 0 <= m < |keys| ==> keys[m] in grouped
    requires i in items && i.fold > 0 && AboutGroup(f, i.fold, Companions(items, i))
    ensures AboutGroups(f, keys, grouped, |keys|)
  {
    var n := KeyOfItem(items, keys, grouped, i);
  }

  lemma GroupsJustified(items: seq<Item>, keys: seq<Key>, grouped: map<Key, seq<Item>>)
    requires Grouped(items, keys, grouped) && forall m :: 0 <= m < |keys| ==> keys[m] in grouped
    ensures forall f :: AboutGroups(f, keys, grouped, |keys|) <==> AboutSomeGroup(f, items)
  {
    forall f ensures AboutGroups(f, keys, grouped, |keys|) <==> AboutSomeGroup(f, items) {
      if n: nat :| n < |keys| && AboutGroup(f, keys[n].fold, grouped[keys[n]]) {
        KeyJustified(items, keys, grouped, f, n);
      }
      if i :| i in items && i.fold > 0 && AboutGroup(f, i.fold, Companions(items, i)) {
        ItemJustified(items, keys, grouped, f, i);
      }
    }
  }

  ghost predicate AllGroupsOk(keys: seq<Key>, grouped: map<Key, seq<Item>>)
    requires forall n :: 0 <= n < |keys| ==> keys[n] in grouped
  {
    forall n :: 0 <= n < |keys| ==> GroupOk(grouped[keys[n]])
  }

  /** Seen phases against the three expected ones. */
  lemma PhasesCovered(g: seq<Item>)
    ensures (set i | i in g :: i.phase) == PHASES ==> forall i :: i in g ==> i.phase in PHASES
    ensures GroupOk(g) ==> (set i | i in g :: i.phase) == PHASES
  {
    var seen := set i | i in g :: i.phase;
    assert forall i :: i in g ==> i.phase in seen;
    if GroupOk(g) {
      forall p | p in PHASES ensures p in seen {
        FilterMembers(PhaseIs(p), g);
        assert Filter(PhaseIs(p), g)[0] in Filter(PhaseIs(p), g);
      }
    }
  }

  method MinMax(keys: seq<Key>) returns (low: int, high: int)
    requires keys != []
    ensures low <= high
    ensures (exists k :: k in keys && k.fold == low) && (exists k :: k in keys && k.fold == high)
    ensures forall k :: k in keys ==> low <= k.fold <= high
  {
    low, high := keys[0].fold, keys[0].fold;
    assert keys[0] in keys;
    for n := 1 to |keys|
      invariant low <= high
      invariant (exists k :: k in keys && k.fold == low) && (exists k :: k in keys && k.fold == high)
      invariant forall m :: 0 <= m < n ==> low <= keys[m].fold <= high
    {
      assert keys[n] in keys;
      if keys[n].fold < low {
        low := keys[n].fold;
      }
      if keys[n].fold > high {
        high := keys[n].fold;
      }
    }
  }

  // ----- What an accepted walk-forward looks like -----

  lemma {:induction false} RangeSize(low: int, high: int, folds: set<int>)
    requires low <= high + 1 && forall k :: k in folds <==> low <= k <= high
    ensures |folds| == high - low + 1
    decreases high - low + 1
  {
    if low <= high {
      RangeSize(low + 1, high, folds - {low});
      assert folds == (folds - {low}) + {low};
    } else {
      assert folds == {};
    }
  }

  /** The folds of an accepted run are one range without gaps, at least as long as required. */
  lemma FoldsFormRange(items: seq<Item>, minFolds: int, low: int, high: int)
    requires ItemsOk(items, minFolds) && low in Folds(items) && high in Folds(items)
    requires forall k :: k in Folds(items) ==> low <= k <= high
    ensures forall k :: k in Folds(items) <==> low <= k <= high
    ensures high - low + 1 >= 1 && high - low + 1 >= minFolds
  {
    RangeSize(low, high, Folds(items));
  }

  lemma {:induction false} PhaseCounts(g: seq<Item>)
    requires forall i :: i in g ==> i.phase in PHASES
    ensures |g| == |Filter(PhaseIs("train"), g)| + |Filter(PhaseIs("validation"), g)| + |Filter(PhaseIs("oos"), g)|
  {
    if g != [] {
      assert g[0] in g && forall i :: i in g[1..] ==> i in g;
      PhaseCounts(g[1..]);
    }
  }

  /** Three windows in strict sequence. */
  ghost predicate InSequence(t: Item, v: Item, o: Item) {
    && t.phase == "train" && v.phase == "validation" && o.phase == "oos" && Parses(t) && Parses(v) && Parses(o)
    && t.start.value <= t.end.value < v.start.value <= v.end.value < o.start.value <= o.end.value
  }

  /** If the items are accepted and every window parses, each fold and bucket has exactly one
      train, one validation and one out-of-sample window, none reversed, strictly in that order. */
  lemma AcceptedGroup(items: seq<Item>, minFolds: int, i: Item)
    requires ItemsOk(items, minFolds) && AllParse(items) && i in items && i.fold > 0
    ensures var g := Companions(items, i);
            |g| == 3 && i in g && exists t, v, o :: t in g && v in g && o in g && InSequence(t, v, o)
  {
    var g := Group(items, KeyOf(i));
    CompanionsGrouped(items, i);
    FilterMembers(InKey(KeyOf(i)), items);
    PhaseCounts(g);
    FilterMembers(PhaseIs("train"), g);
    FilterMembers(PhaseIs("validation"), g);
    FilterMembers(PhaseIs("oos"), g);
    var t, v, o := Filter(PhaseIs("train"), g)[0], Filter(PhaseIs("validation"), g)[0], Filter(PhaseIs("oos"), g)[0];
    assert t in Filter(PhaseIs("train"), g) && v in Filter(PhaseIs("validation"), g) && o in Filter(PhaseIs("oos"), g);
    assert NotReversed(t);
    assert InSequence(t, v, o);
  }

  // ----- What accepted evidence says about the folds -----

  function WindowFolds(windows: seq<WindowEvidence>): set<int> {
    set w | w in windows :: w.fold
  }

  /** Evidence is only counted: two windows of one fold are accepted for two folds. */
  lemma EvidenceMissesFold()
    ensures var w := WindowEvidence(1, "ALLOW", true, [Candidate(true, true)], "COMPLETED", true);
            EvidenceOk(Some([w, w]), |{1, 2}|) && 2 !in WindowFolds([w, w])
  {
    var c := Candidate(true, true);
    var w := WindowEvidence(1, "ALLOW", true, [c], "COMPLETED", true);
    assert [c][1..] == [];
    assert Filter((c: Candidate) => c.selected, [c]) == [c];
    assert WindowOk(w);
    assert |{1, 2}| == 2;
  }

  lemma {:induction false} SubsetSize<T>(a: set<T>, b: set<T>)
    requires a <= b
    ensures |a| <= |b| && (|a| == |b| ==> a == b)
  {
    if a != {} {
      var x :| x in a;
      SubsetSize(a - {x}, b - {x});
      assert a == (a - {x}) + {x} && b == (b - {x}) + {x};
    } else if b != {} {
      var x :| x in b;
      assert |b| >= 1;
    }
  }

  lemma {:induction false} DistinctFolds(windows: seq<WindowEvidence>)
    requires forall i, j :: 0 <= i < j < |windows| ==> windows[i].fold != windows[j].fold
    ensures |WindowFolds(windows)| == |windows|
  {
    if windows != [] {
      var n := |windows| - 1;
      var front, last := windows[..n], windows[n];
      DistinctFolds(front);
      assert windows == front + [last];
      assert WindowFolds(windows) == WindowFolds(front) + {last.fold};
      assert forall i :: 0 <= i < n ==> front[i].fold != last.fold;
    }
  }

  /** Where every window names one of the folds, accepted evidence covers all folds exactly when it
      names as many different folds; so it does whenever no two windows name the same fold. */
  lemma EvidenceCoversIff(windows: seq<WindowEvidence>, folds: set<int>)
    requires EvidenceOk(Some(windows), |folds|) && forall w :: w in windows ==> w.fold in folds
    ensures WindowFolds(windows) == folds <==> |WindowFolds(windows)| == |folds|
    ensures (forall i, j :: 0 <= i < j < |windows| ==> windows[i].fold != windows[j].fold) ==>
              WindowFolds(windows) == folds
  {
    assert WindowFolds(windows) <= folds;
    SubsetSize(WindowFolds(windows), folds);
    if forall i, j :: 0 <= i < j < |windows| ==> windows[i].fold != windows[j].fold {
      DistinctFolds(windows);
    }
  }
}

/** Reverse replay of index-membership events, scripts/import_csindex_csi300_pit.py:400-411 and
    471-481, against the forward replay of web/backend/app/services/csi300_pit.py:953-1003. */
module Membership {
  import opened Wrappers
  import opened Sorting

  datatype Action = Add | Delete | OtherAction

  /** Dates are day numbers. */
  datatype Event = Event(date: int, symbol: string, action: Action, name: string)

  datatype Member = Member(symbol: string, name: string, listedDate: Option<int>)

  type Members = map<string, Member>

  // ----- The reverse replay -----

  /** The sort key `(effective_date, symbol)` with `reverse=True`: later keys first, and, because
      Python keeps a reversed sort stable, ties in their original order. */
  predicate LatestFirst(a: Event, b: Event) {
    a.date > b.date || (a.date == b.date && StringLeq(b.symbol, a.symbol))
  }

  predicate BySymbol(a: Member, b: Member) {
    StringLeq(a.symbol, b.symbol)
  }

  function Restored(e: Event): Member {
    Member(e.symbol, if e.name != "" then e.name else e.symbol, None)
  }

  /** The body of the replay loop. */
  function Undo(m: Members, e: Event): Members {
    match e.action
    case Add => m - {e.symbol}
    case Delete => m[e.symbol := Restored(e)]
    case OtherAction => m
  }

  function UndoAll(m: Members, events: seq<Event>): Members
    decreases |events|
  {
    if events == [] then m else UndoAll(Undo(m, events[0]), events[1..])
  }

  /** `{item["symbol"]: item for item in final_members}`. */
  function Index(members: seq<Member>): (m: Members)
    ensures forall s :: s in m ==> m[s].symbol == s
  {
    if members == [] then map[]
    else
      Index(members[..|members| - 1])[members[|members| - 1].symbol := members[|members| - 1]]
  }

  ghost function Replayed(final: seq<Member>, events: seq<Event>): Members {
    UndoAll(Index(final), Sort(LatestFirst, events))
  }

  // ----- What decides a symbol -----

  predicate Moves(e: Event) {
    e.action != OtherAction
  }

  /** The adds and deletes of one symbol, in list order. */
  function About(events: seq<Event>, s: string): seq<Event> {
    Filter((e: Event) => e.symbol == s && Moves(e), events)
  }

  /** The last listed among the earliest events. */
  function LastOfEarliest(events: seq<Event>): Event
    requires events != []
  {
    if |events| == 1 then events[0]
    else
      var r := LastOfEarliest(events[1..]);
      if events[0].date < r.date then events[0] else r
  }

  lemma LatestFirstOrder()
    ensures Preorder(LatestFirst)
  {
    StringOrder();
  }

  lemma SortedLatest(events: seq<Event>)
    ensures Sorted(LatestFirst, Sort(LatestFirst, events))
  {
    LatestFirstOrder();
    SortSorts(LatestFirst, events);
  }

  lemma {:induction false} InsertLast(x: Event, s: seq<Event>)
    requires s != [] && Sorted(LatestFirst, s)
    requires forall e :: e in s ==> e.symbol == x.symbol
    ensures var t := Insert(LatestFirst, x, s);
            t != [] && t[|t| - 1] == if x.date < s[|s| - 1].date then x else s[|s| - 1]
  {
    StringOrder();
    if LatestFirst(x, s[0]) {
      assert |s| == 1 || LatestFirst(s[0], s[|s| - 1]);
    } else if |s| > 1 {
      assert forall e :: e in s[1..] ==> e in s;
      InsertLast(x, s[1..]);
      assert s[1..][|s[1..]| - 1] == s[|s| - 1];
    } else {
      assert Insert(LatestFirst, x, s[1..]) == [x];
      assert s[|s| - 1] in s;
    }
  }

  lemma SortOfSymbol(events: seq<Event>, s: string)
    requires events != [] && forall e :: e in events ==> e.symbol == s
    ensures var t := Sort(LatestFirst, events);
            t != [] && Sorted(LatestFirst, t) && forall e :: e in t ==> e.symbol == s
  {
    SortPermutes(LatestFirst, events);
    SortedLatest(events);
    forall e | e in Sort(LatestFirst, events) ensures e.symbol == s {
      SameMembers(Sort(LatestFirst, events), events, e);
    }
  }

  /** The reversed sort leaves the last of the earliest events of a symbol to the end. */
  lemma {:induction false} SortLast(events: seq<Event>, s: string)
    requires events != [] && forall e :: e in events ==> e.symbol == s
    ensures var t := Sort(LatestFirst, events); t != [] && t[|t| - 1] == LastOfEarliest(events)
  {
    var x, rest := events[0], events[1..];
    assert x in events && forall e :: e in rest ==> e in events;
    if rest == [] {
      assert Sort(LatestFirst, rest) == [];
    } else {
      SortLast(rest, s);
      SortOfSymbol(rest, s);
      InsertLast(x, Sort(LatestFirst, rest));
    }
  }

  /** Replaying a list, the last event about a symbol decides it. */
  lemma {:induction false} LastDecides(m: Members, events: seq<Event>, s: string)
    ensures var mine := About(events, s);
            var r := UndoAll(m, events);
            if mine == [] then (s in r <==> s in m) && (s in m ==> r[s] == m[s])
            else
              var last := mine[|mine| - 1];
              (s in r <==> last.action == Delete) && (last.action == Delete ==> r[s] == Restored(last))
    decreases |events|
  {
    if events != [] {
      LastDecides(Undo(m, events[0]), events[1..], s);
    }
  }

  lemma {:induction false} AboutMembers(events: seq<Event>, s: string)
    ensures forall e :: e in About(events, s) ==> e in events && e.symbol == s && Moves(e)
  {
    FilterMembers((e: Event) => e.symbol == s && Moves(e), events);
  }

  lemma ReplayRestores(final: seq<Member>, events: seq<Event>, s: string)
    ensures var mine := About(events, s);
            var r := Replayed(final, events);
            if mine == [] then (s in r <==> s in Index(final)) && (s in r ==> r[s] == Index(final)[s])
            else
              var e := LastOfEarliest(mine);
              (s in r <==> e.action == Delete) && (s in r ==> r[s] == Restored(e))
  {
    var keep := (e: Event) => e.symbol == s && Moves(e);
    LatestFirstOrder();
    FilterSort(LatestFirst, keep, events);
    assert About(Sort(LatestFirst, events), s) == Sort(LatestFirst, About(events, s));
    LastDecides(Index(final), Sort(LatestFirst, events), s);
    AboutMembers(events, s);
    if About(events, s) != [] {
      SortLast(About(events, s), s);
    }
  }

  /** The record of a symbol that a delete reinstates: without a listing date, named by the event or,
      if the event has no name, by the symbol. */
  ghost predicate ReinstatedBy(e: Event, s: string, x: Member) {
    && x.symbol == s && x.listedDate == None
    && (e.name != "" ==> x.name == e.name) && (e.name == "" ==> x.name == s)
  }

  /** `x` is the last listed record of its symbol. */
  ghost predicate LastListed(members: seq<Member>, x: Member) {
    exists i :: LastListedAt(members, x, i)
  }

  ghost predicate LastListedAt(members: seq<Member>, x: Member, i: int) {
    && 0 <= i < |members| && members[i] == x
    && forall j :: i < j < |members| ==> members[j].symbol != x.symbol
  }

  lemma LastListedStep(front: seq<Member>, last: Member, x: Member)
    ensures LastListed(front + [last], x) <==> x == last || (last.symbol != x.symbol && LastListed(front, x))
  {
    var all, n := front + [last], |front|;
    assert all[n] == last && forall j :: 0 <= j < n ==> all[j] == front[j];
    if x == last {
      assert LastListedAt(all, x, n);
    } else if i :| LastListedAt(all, x, i) {
      assert i < n && all[n] == last;
      assert LastListedAt(front, x, i);
    } else if last.symbol != x.symbol && LastListed(front, x) {
      var i :| LastListedAt(front, x, i);
      assert LastListedAt(all, x, i);
    }
  }

  lemma IndexStep(front: seq<Member>, last: Member)
    ensures Index(front + [last]) == Index(front)[last.symbol := last]
  {
    assert (front + [last])[..|front|] == front;
  }

  /** Indexing keeps the last listed record of each symbol. */
  lemma {:induction false} IndexMeaning(members: seq<Member>, x: Member)
    ensures x.symbol in Index(members) && Index(members)[x.symbol] == x <==> LastListed(members, x)
  {
    if members != [] {
      var front, last := members[..|members| - 1], members[|members| - 1];
      IndexMeaning(front, x);
      IndexStep(front, last);
      LastListedStep(front, last, x);
      assert members == front + [last];
    }
  }

  lemma IndexFrom(members: seq<Member>, s: string)
    requires s in Index(members)
    ensures Index(members)[s] in members
  {
    var x := Index(members)[s];
    IndexMeaning(members, x);
    var i :| LastListedAt(members, x, i);
  }

  /** A record of the initial membership: of a symbol without events the last final record, of the
      others that of the last listed of its earliest events, which is a delete. */
  ghost predicate InitialRecord(final: seq<Member>, events: seq<Event>, x: Member) {
    var mine := About(events, x.symbol);
    if mine == [] then LastListed(final, x)
    else LastOfEarliest(mine).action == Delete && ReinstatedBy(LastOfEarliest(mine), x.symbol, x)
  }

  /** For every list of events, ties included: a symbol that has events is an initial member
      exactly when the last listed of its earliest events is a delete, and then carries that
      event's name; one without events keeps its final record. */
  lemma ReplayDecides(final: seq<Member>, events: seq<Event>, s: string)
    ensures var mine := About(events, s);
            var r := Replayed(final, events);
            if mine == [] then (s in r <==> s in Index(final)) && (s in r ==> r[s] == Index(final)[s])
            else
              var e := LastOfEarliest(mine);
              (s in r <==> e.action == Delete) && (s in r ==> ReinstatedBy(e, s, r[s]))
  {
    ReplayRestores(final, events, s);
    AboutMembers(events, s);
    var mine := About(events, s);
    if mine != [] {
      EarliestShareDate(mine);
      assert LastOfEarliest(mine).symbol == s;
    }
  }

  lemma ReplayedRecord(final: seq<Member>, events: seq<Event>, x: Member)
    ensures x.symbol in Replayed(final, events) && Replayed(final, events)[x.symbol] == x <==>
            InitialRecord(final, events, x)
  {
    ReplayDecides(final, events, x.symbol);
    IndexMeaning(final, x);
  }

  /** A list without repeated symbols holds exactly the records that its index holds. */
  lemma InIndex(r: seq<Member>, x: Member)
    requires forall i, j :: 0 <= i < j < |r| ==> r[i].symbol != r[j].symbol
    ensures x in r <==> x.symbol in Index(r) && Index(r)[x.symbol] == x
  {
    if x in r {
      LookupMember(r, x);
    }
  }

  lemma DerivedRecords(final: seq<Member>, events: seq<Event>, r: seq<Member>)
    requires Index(r) == Replayed(final, events) && Sorted(BySymbol, r)
    requires forall i, j :: 0 <= i < j < |r| ==> r[i].symbol != r[j].symbol
    ensures forall x :: x in r <==> InitialRecord(final, events, x)
    ensures forall i, j :: 0 <= i < j < |r| ==> Ascending(r[i].symbol, r[j].symbol)
  {
    forall x ensures x in r <==> InitialRecord(final, events, x) {
      InIndex(r, x);
      ReplayedRecord(final, events, x);
    }
    forall i, j | 0 <= i < j < |r| ensures Ascending(r[i].symbol, r[j].symbol) {
      StringLeqMeaning(r[i].symbol, r[j].symbol);
    }
  }

  method DeriveInitialMembers(final: seq<Member>, events: seq<Event>) returns (r: seq<Member>)
    ensures Index(r) == Replayed(final, events) && |r| == |Replayed(final, events)|
    ensures forall x :: x in r <==> InitialRecord(final, events, x)
    ensures forall i, j :: 0 <= i < j < |r| ==> r[i].symbol != r[j].symbol && Ascending(r[i].symbol, r[j].symbol)
  {
    var members := Index(final);
    var order := Sort(LatestFirst, events);
    for i := 0 to |order|
      invariant UndoAll(members, order[i..]) == Replayed(final, events)
      invariant forall s :: s in members ==> members[s].symbol == s
    {
      var event := order[i];
      assert order[i..][1..] == order[i + 1..];
      if event.action == Add {
        members := members - {event.symbol};
      } else if event.action == Delete {
        members := members[event.symbol := Restored(event)];
      }
    }
    r := SortedValues(members);
    DerivedRecords(final, events, r);
  }

  /** `sorted(members.values(), key=symbol)`. */
  method SortedValues(members: Members) returns (r: seq<Member>)
    requires forall s :: s in members ==> members[s].symbol == s
    ensures Index(r) == members && |r| == |members|
    ensures Sorted(BySymbol, r)
    ensures forall i, j :: 0 <= i < j < |r| ==> r[i].symbol != r[j].symbol
  {
    var symbols := SortedListOf(members.Keys);
    DistinctCounts(symbols);
    r := seq(|symbols|, i requires 0 <= i < |symbols| =>
      assert symbols[i] in symbols; assert symbols[i] in members.Keys; members[symbols[i]]);
    forall i | 0 <= i < |r| ensures symbols[i] in members && r[i] == members[symbols[i]] && r[i].symbol == symbols[i] {
      assert symbols[i] in symbols;
    }
    ValuesSorted(r, members, symbols);
    forall s | s in members ensures members[s] in r {
      assert s in symbols;
      var i :| 0 <= i < |symbols| && symbols[i] == s;
      assert r[i] == members[s];
    }
    IndexOf(r, members);
    assert |members| == |members.Keys|;
  }

  lemma {:induction false} IndexLookup(r: seq<Member>, i: nat)
    requires i < |r| && forall i, j :: 0 <= i < j < |r| ==> r[i].symbol != r[j].symbol
    ensures r[i].symbol in Index(r) && Index(r)[r[i].symbol] == r[i]
  {
    var n := |r| - 1;
    if i < n {
      IndexLookup(r[..n], i);
    }
  }

  lemma ValuesSorted(r: seq<Member>, members: Members, symbols: seq<string>)
    requires IsSortedList(symbols, members.Keys) && |r| == |symbols|
    requires forall i :: 0 <= i < |r| ==> r[i].symbol == symbols[i]
    ensures Sorted(BySymbol, r)
    ensures forall i, j :: 0 <= i < j < |r| ==> r[i].symbol != r[j].symbol
  {
  }

  /** A list of records with distinct symbols indexes back to the map it enumerates. */
  lemma IndexOf(r: seq<Member>, members: Members)
    requires forall i, j :: 0 <= i < j < |r| ==> r[i].symbol != r[j].symbol
    requires forall x :: x in r ==> x.symbol in members
    requires forall s :: s in members ==> members[s].symbol == s && members[s] in r
    ensures Index(r) == members
  {
    forall x | x in r ensures x.symbol in Index(r) && Index(r)[x.symbol] == x { LookupMember(r, x); }
    forall s | s in Index(r) ensures Index(r)[s] in r { IndexFrom(r, s); }
    SameRecords(r, Index(r), members);
  }

  lemma SameRecords(r: seq<Member>, m: Members, members: Members)
    requires forall x :: x in r ==> x.symbol in m && m[x.symbol] == x && x.symbol in members
    requires forall s :: s in m ==> m[s].symbol == s && m[s] in r
    requires forall s :: s in members ==> members[s].symbol == s && members[s] in r
    ensures m == members
  {
    forall s | s in members ensures s in m && m[s] == members[s] {
      assert members[s] in r;
    }
  }

  lemma LookupMember(r: seq<Member>, x: Member)
    requires forall i, j :: 0 <= i < j < |r| ==> r[i].symbol != r[j].symbol
    requires x in r
    ensures x.symbol in Index(r) && Index(r)[x.symbol] == x
  {
    var i :| 0 <= i < |r| && r[i] == x;
    IndexLookup(r, i);
  }

  // ----- The forward replay it is meant to undo -----

  /** The forward order: by date, deletes before other events, then by symbol. */
  predicate EarliestFirst(a: Event, b: Event) {
    a.date < b.date ||
    (a.date == b.date &&
      ((a.action == Delete && b.action != Delete) ||
       ((a.action == Delete <==> b.action == Delete) && StringLeq(a.symbol, b.symbol))))
  }

  lemma EarliestFirstOrder()
    ensures Preorder(EarliestFirst)
  {
    StringOrder();
  }

  /** The active set; adds of active and deletes of inactive symbols are only warned about. */
  function Apply(active: set<string>, e: Event): set<string> {
    match e.action
    case Add => active + {e.symbol}
    case Delete => active - {e.symbol}
    case OtherAction => active
  }

  function ApplyAll(active: set<string>, events: seq<Event>): set<string>
    decreases |events|
  {
    if events == [] then active else ApplyAll(Apply(active, events[0]), events[1..])
  }

  /** No `delete_without_active_member` and no `add_while_already_active` warning. */
  predicate NoWarning(active: set<string>, events: seq<Event>)
    decreases |events|
  {
    events == [] ||
    (&& (events[0].action == Add ==> events[0].symbol !in active)
     && (events[0].action == Delete ==> events[0].symbol in active)
     && NoWarning(Apply(active, events[0]), events[1..]))
  }

  /** A history without warnings from `initial`, ending in the symbols of `final`. */
  ghost predicate History(initial: set<string>, events: seq<Event>, final: seq<Member>) {
    && NoWarning(initial, Sort(EarliestFirst, events))
    && ApplyAll(initial, Sort(EarliestFirst, events)) == Index(final).Keys
  }

  /** The first event in forward order among those of one symbol. */
  function FirstOfEarliest(events: seq<Event>): Event
    requires events != []
  {
    if |events| == 1 then events[0]
    else
      var r := FirstOfEarliest(events[1..]);
      if EarliestFirst(events[0], r) then events[0] else r
  }

  lemma {:induction false} SortFirst(events: seq<Event>)
    requires events != []
    ensures var t := Sort(EarliestFirst, events); t != [] && t[0] == FirstOfEarliest(events)
  {
    if |events| == 1 {
      assert Sort(EarliestFirst, events[1..]) == [];
    } else {
      SortFirst(events[1..]);
    }
  }

  /** In a history without warnings the first event of a symbol reveals whether it was a member. */
  lemma {:induction false} FirstReveals(active: set<string>, events: seq<Event>, s: string)
    requires NoWarning(active, events)
    ensures var mine := About(events, s);
            s in active <==> if mine == [] then s in ApplyAll(active, events) else mine[0].action == Delete
    decreases |events|
  {
    if events != [] {
      FirstReveals(Apply(active, events[0]), events[1..], s);
    }
  }

  lemma InitialRevealed(initial: set<string>, events: seq<Event>, final: seq<Member>, s: string)
    requires History(initial, events, final)
    ensures var mine := About(events, s);
            s in initial <==> if mine == [] then s in Index(final) else FirstOfEarliest(mine).action == Delete
  {
    var keep := (e: Event) => e.symbol == s && Moves(e);
    EarliestFirstOrder();
    FilterSort(EarliestFirst, keep, events);
    assert About(Sort(EarliestFirst, events), s) == Sort(EarliestFirst, About(events, s));
    FirstReveals(initial, Sort(EarliestFirst, events), s);
    if About(events, s) != [] {
      SortFirst(About(events, s));
    }
  }

  /** If the earliest events of a symbol include a delete, the last listed of them is a delete. */
  ghost predicate DeleteListedLast(events: seq<Event>, s: string) {
    var mine := About(events, s);
    mine != [] ==>
      forall e :: e in mine && e.date == LastOfEarliest(mine).date && e.action == Delete ==>
        LastOfEarliest(mine).action == Delete
  }

  lemma {:induction false} EarliestShareDate(events: seq<Event>)
    requires events != []
    ensures LastOfEarliest(events) in events && FirstOfEarliest(events) in events
    ensures LastOfEarliest(events).date == FirstOfEarliest(events).date
    ensures forall e :: e in events ==> EarliestFirst(FirstOfEarliest(events), e)
  {
    EarliestFirstOrder();
    if |events| > 1 {
      EarliestShareDate(events[1..]);
      assert events == [events[0]] + events[1..];
    }
  }

  /** The round trip, for every history without warnings: reverse replay recovers exactly the
      initial members if and only if no symbol breaks `DeleteListedLast`. */
  lemma ReplayUndoesHistory(initial: set<string>, events: seq<Event>, final: seq<Member>)
    requires History(initial, events, final)
    ensures Replayed(final, events).Keys == initial <==> forall s :: DeleteListedLast(events, s)
  {
    forall s ensures (s in Replayed(final, events) <==> s in initial) <==> DeleteListedLast(events, s) {
      ReplayDecides(final, events, s);
      InitialRevealed(initial, events, final, s);
      AboutMembers(events, s);
      var mine := About(events, s);
      if mine != [] {
        EarliestShareDate(mine);
        assert FirstOfEarliest(mine).date == LastOfEarliest(mine).date;
      }
    }
  }

  /** No two events share a date and a symbol. */
  ghost predicate DistinctKeys(events: seq<Event>) {
    forall i, j :: 0 <= i < j < |events| ==> events[i].date != events[j].date || events[i].symbol != events[j].symbol
  }

  lemma {:induction false} FilterKeepsKeys(keep: Event -> bool, events: seq<Event>)
    requires DistinctKeys(events)
    ensures DistinctKeys(Filter(keep, events))
  {
    if events != [] {
      assert DistinctKeys(events[1..]);
      FilterKeepsKeys(keep, events[1..]);
      FilterMembers(keep, events[1..]);
      var rest := Filter(keep, events[1..]);
      forall j | 0 <= j < |rest| ensures rest[j].date != events[0].date || rest[j].symbol != events[0].symbol {
        assert rest[j] in events[1..];
        var k :| 0 <= k < |events| - 1 && events[1..][k] == rest[j];
        assert events[k + 1] == rest[j];
      }
    }
  }

  /** With distinct keys the round trip always holds. */
  lemma DistinctKeysRoundTrip(initial: set<string>, events: seq<Event>, final: seq<Member>)
    requires History(initial, events, final) && DistinctKeys(events)
    ensures Replayed(final, events).Keys == initial
  {
    forall s ensures DeleteListedLast(events, s) {
      FilterKeepsKeys((e: Event) => e.symbol == s && Moves(e), events);
      AboutMembers(events, s);
      var mine := About(events, s);
      if mine != [] {
        EarliestShareDate(mine);
        var i :| 0 <= i < |mine| && mine[i] == LastOfEarliest(mine);
        var j :| 0 <= j < |mine| && mine[j] == FirstOfEarliest(mine);
        assert i == j;
        forall e | e in mine && e.date == LastOfEarliest(mine).date ensures e == LastOfEarliest(mine) {
          var k :| 0 <= k < |mine| && mine[k] == e;
          assert k == i;
        }
      }
    }
    ReplayUndoesHistory(initial, events, final);
  }

  /** A tie that breaks it: a delete and a re-add of one symbol on one day, listed in that order. */
  lemma TieBreaksRoundTrip()
    ensures var events := [Event(1, "600000", Delete, "X"), Event(1, "600000", Add, "X")];
            var final := [Member("600000", "X", None)];
            History({"600000"}, events, final) && Replayed(final, events).Keys != {"600000"}
  {
    var d, a := Event(1, "600000", Delete, "X"), Event(1, "600000", Add, "X");
    var events := [d, a];
    var final := [Member("600000", "X", None)];
    StringOrder();
    assert events[1..] == [a] && [a][1..] == [];
    assert Sort(EarliestFirst, [a]) == [a];
    assert Sort(EarliestFirst, events) == [d, a];
    assert Sort(LatestFirst, [a]) == [a];
    assert Sort(LatestFirst, events) == [d, a];
    assert [d, a][1..] == [a];
    assert final[..0] == [];
    assert Index(final) == map["600000" := final[0]];
    assert Apply({"600000"}, d) == {};
    assert NoWarning({}, [a]);
    assert ApplyAll({}, [a]) == {"600000"};
    var m := Undo(Index(final), d);
    assert UndoAll(m, [a]) == Undo(m, a);
  }

  // ----- The official initial membership: lines 468-488 -----

  const INITIAL_EFFECTIVE_DATE := 732044
  const INITIAL_SNAPSHOT_EFFECTIVE_DATE := 732128
  const MEMBER_COUNT := 300

  datatype Reconstruction = Reconstructed(members: seq<Member>) | NoSnapshot | WrongCount(count: nat)

  predicate InWindow(e: Event) {
    INITIAL_EFFECTIVE_DATE < e.date <= INITIAL_SNAPSHOT_EFFECTIVE_DATE
  }

  /** The events after 8 April 2005 and up to 1 July 2005, in order. */
  ghost function Window(events: seq<Event>): seq<Event> {
    Filter((e: Event) => 732044 < e.date <= 732128, events)
  }

  lemma {:induction false} WindowMeaning(events: seq<Event>)
    ensures Filter(InWindow, events) == Window(events)
  {
    if events != [] {
      WindowMeaning(events[1..]);
    }
  }

  method OfficialInitialMembers(snapshots: seq<seq<Member>>, events: seq<Event>) returns (r: Reconstruction)
    ensures snapshots == [] <==> r.NoSnapshot?
    ensures snapshots != [] ==>
              var replayed := Replayed(snapshots[0], Window(events));
              && (r.Reconstructed? <==> |replayed| == 300) && (r.WrongCount? ==> r.count == |replayed|)
              && (r.Reconstructed? ==> Index(r.members) == replayed && |r.members| == 300 &&
                                       forall x :: x in r.members <==> InitialRecord(snapshots[0], Window(events), x))
  {
    if snapshots == [] {
      return NoSnapshot;
    }
    var early := Filter(InWindow, events);
    WindowMeaning(events);
    var initial := DeriveInitialMembers(snapshots[0], early);
    if |initial| != MEMBER_COUNT {
      return WrongCount(|initial|);
    }
    return Reconstructed(initial);
  }

  function CountOf(events: seq<Event>, action: Action): nat {
    |Filter((e: Event) => e.action == action, events)|
  }

  /** Membership changes by one at every event of a history without warnings. */
  lemma {:induction false} CountConserved(active: set<string>, events: seq<Event>)
    requires NoWarning(active, events)
    ensures |ApplyAll(active, events)| + CountOf(events, Delete) == |active| + CountOf(events, Add)
    decreases |events|
  {
    if events != [] {
      CountConserved(Apply(active, events[0]), events[1..]);
    }
  }

  /** Reverse replay of a window that it undoes exactly conserves the count: snapshot members plus
      deletes are reconstructed members plus adds, so with as many adds as deletes a full snapshot
      passes the count check. */
  lemma WindowConserves(initial: set<string>, window: seq<Event>, snapshot: seq<Member>)
    requires History(initial, window, snapshot) && (forall s :: DeleteListedLast(window, s))
    ensures |Replayed(snapshot, window)| + CountOf(window, Add) == |Index(snapshot)| + CountOf(window, Delete)
  {
    ReplayUndoesHistory(initial, window, snapshot);
    CountConserved(initial, Sort(EarliestFirst, window));
    EarliestFirstOrder();
    FilterSort(EarliestFirst, (e: Event) => e.action == Add, window);
    FilterSort(EarliestFirst, (e: Event) => e.action == Delete, window);
    SortPermutes(EarliestFirst, Filter((e: Event) => e.action == Add, window));
    SortPermutes(EarliestFirst, Filter((e: Event) => e.action == Delete, window));
    assert |Index(snapshot).Keys| == |Index(snapshot)|;
    assert |Replayed(snapshot, window).Keys| == |Replayed(snapshot, window)|;
  }

  // ----- Terminations with variable dates: lines 500-547 -----

  datatype Company = Company(name: string, symbol: string)

  function Symbols(companies: seq<Company>): seq<string> {
    seq(|companies|, i requires 0 <= i < |companies| => companies[i].symbol)
  }

  function DatesFor(delisted: map<string, int>, symbols: seq<string>): seq<int>
    requires forall s :: s in symbols ==> s in delisted
  {
    seq(|symbols|, i requires 0 <= i < |symbols| => assert symbols[i] in symbols; delisted[symbols[i]])
  }

  function DatesOf(events: seq<Event>, action: Action): seq<int> {
    if events == [] then []
    else if events[0].action == action then [events[0].date] + DatesOf(events[1..], action)
    else DatesOf(events[1..], action)
  }

  predicate IntLeq(a: int, b: int) {
    a <= b
  }

  /** The first loop: a delete per outgoing company on its own date. */
  ghost predicate Deletes(outgoing: seq<Company>, delisted: map<string, int>, events: seq<Event>)
    requires forall i :: 0 <= i < |outgoing| ==> outgoing[i].symbol in delisted
  {
    && |events| == |outgoing|
    && forall i :: 0 <= i < |outgoing| ==>
         events[i] == Event(delisted[outgoing[i].symbol], outgoing[i].symbol, Delete, outgoing[i].name)
  }

  /** The second loop: an add per incoming company on the next date, as far as there are dates. */
  ghost predicate Adds(incoming: seq<Company>, dates: seq<int>, events: seq<Event>) {
    && |events| == |dates| <= |incoming|
    && forall k :: 0 <= k < |dates| ==> events[k] == Event(dates[k], incoming[k].symbol, Add, incoming[k].name)
  }

  ghost predicate TerminationEvents(outgoing: seq<Company>, incoming: seq<Company>, delisted: map<string, int>,
                                    distinct: seq<string>, events: seq<Event>) {
    && (forall i :: 0 <= i < |outgoing| ==> outgoing[i].symbol in delisted)
    && delisted.Keys == (set s | s in Symbols(outgoing))
    && IsSortedList(distinct, delisted.Keys)
    && |outgoing| == |incoming| && |outgoing| <= |events|
    && Deletes(outgoing, delisted, events[..|outgoing|])
    && Adds(incoming, Sort(IntLeq, DatesFor(delisted, distinct)), events[|outgoing|..])
  }

  /** Lines 516-530. */
  method DeleteLoop(outgoing: seq<Company>, delisted: map<string, int>) returns (events: seq<Event>)
    requires forall i :: 0 <= i < |outgoing| ==> outgoing[i].symbol in delisted
    ensures Deletes(outgoing, delisted, events)
  {
    events := [];
    for i := 0 to |outgoing|
      invariant Deletes(outgoing[..i], delisted, events)
    {
      events := events + [Event(delisted[outgoing[i].symbol], outgoing[i].symbol, Delete, outgoing[i].name)];
    }
    assert outgoing[..|outgoing|] == outgoing;
  }

  /** Lines 533-547, where `zip` stops at the shorter list. */
  method AddLoop(incoming: seq<Company>, dates: seq<int>) returns (events: seq<Event>)
    requires |dates| <= |incoming|
    ensures Adds(incoming, dates, events)
  {
    events := [];
    for k := 0 to |dates|
      invariant Adds(incoming, dates[..k], events)
    {
      events := events + [Event(dates[k], incoming[k].symbol, Add, incoming[k].name)];
    }
    assert dates[..|dates|] == dates;
  }

  ghost predicate InDateOrder(events: seq<Event>) {
    forall i, j :: 0 <= i < j < |events| ==> events[i].date <= events[j].date
  }

  lemma AddsInOrder(incoming: seq<Company>, dates: seq<int>, events: seq<Event>)
    requires Adds(incoming, Sort(IntLeq, dates), events)
    ensures InDateOrder(events)
  {
    SortSorts(IntLeq, dates);
  }

  method VariableTerminationEvents(outgoing: seq<Company>, incoming: seq<Company>, securities: map<string, Option<int>>)
    returns (parsed: bool, events: seq<Event>)
    ensures parsed <==> outgoing != [] && |outgoing| == |incoming| &&
                        forall s :: s in Symbols(outgoing) ==> s in securities && securities[s].Some?
    ensures !parsed ==> events == []
    ensures parsed ==> exists delisted, distinct ::
              && (forall s :: s in delisted ==> s in securities && securities[s] == Some(delisted[s]))
              && TerminationEvents(outgoing, incoming, delisted, distinct, events)
              && InDateOrder(events[|outgoing|..])
  {
    if outgoing == [] || |outgoing| != |incoming| {
      return false, [];
    }
    var symbols := Symbols(outgoing);
    if exists s :: s in symbols && (s !in securities || securities[s].None?) {
      return false, [];
    }
    var delisted: map<string, int> := map s | s in symbols :: securities[s].value;
    forall i | 0 <= i < |outgoing| ensures outgoing[i].symbol in delisted {
      assert symbols[i] in symbols;
    }
    var deletes := DeleteLoop(outgoing, delisted);
    var distinct := SortedListOf(delisted.Keys);
    var dates := Sort(IntLeq, DatesFor(delisted, distinct));
    SortPermutes(IntLeq, DatesFor(delisted, distinct));
    FewerDistinct(symbols, distinct, delisted.Keys);
    var adds := AddLoop(incoming, dates);
    JoinEvents(outgoing, incoming, delisted, distinct, deletes, adds);
    AddsInOrder(incoming, DatesFor(delisted, distinct), adds);
    assert (deletes + adds)[|outgoing|..] == adds;
    return true, deletes + adds;
  }

  lemma JoinEvents(outgoing: seq<Company>, incoming: seq<Company>, delisted: map<string, int>,
                   distinct: seq<string>, deletes: seq<Event>, adds: seq<Event>)
    requires forall i :: 0 <= i < |outgoing| ==> outgoing[i].symbol in delisted
    requires delisted.Keys == (set s | s in Symbols(outgoing)) && IsSortedList(distinct, delisted.Keys)
    requires |outgoing| == |incoming| && Deletes(outgoing, delisted, deletes)
    requires Adds(incoming, Sort(IntLeq, DatesFor(delisted, distinct)), adds)
    ensures TerminationEvents(outgoing, incoming, delisted, distinct, deletes + adds)
  {
    assert (deletes + adds)[..|outgoing|] == deletes;
    assert (deletes + adds)[|outgoing|..] == adds;
  }

  lemma {:induction false} SetNoLarger(s: seq<string>)
    ensures |set x | x in s| <= |s|
    ensures |set x | x in s| == |s| ==> Distinct(s)
  {
    if s != [] {
      SetNoLarger(s[1..]);
      assert (set x | x in s) == {s[0]} + (set x | x in s[1..]);
      if s[0] in s[1..] {
        assert (set x | x in s) == (set x | x in s[1..]);
      }
    }
  }

  lemma FewerDistinct(symbols: seq<string>, distinct: seq<string>, keys: set<string>)
    requires keys == (set x | x in symbols) && IsSortedList(distinct, keys)
    ensures |distinct| <= |symbols|
    ensures |distinct| == |symbols| ==> Distinct(symbols)
  {
    SetNoLarger(symbols);
    DistinctCounts(distinct);
  }

  lemma {:induction false} DatesOfSplit(a: seq<Event>, b: seq<Event>, action: Action)
    ensures DatesOf(a + b, action) == DatesOf(a, action) + DatesOf(b, action)
  {
    if a == [] {
      assert a + b == b;
    } else {
      DatesOfSplit(a[1..], b, action);
      assert (a + b)[1..] == a[1..] + b;
    }
  }

  lemma {:induction false} DatesOfUniform(events: seq<Event>, dates: seq<int>, action: Action, other: Action)
    requires |events| == |dates| && action != other
    requires forall i :: 0 <= i < |events| ==> events[i].action == action && events[i].date == dates[i]
    ensures DatesOf(events, action) == dates && DatesOf(events, other) == []
  {
    if events != [] {
      DatesOfUniform(events[1..], dates[1..], action, other);
      assert dates == [dates[0]] + dates[1..];
    }
  }

  lemma DatesPermute(delisted: map<string, int>, a: seq<string>, b: seq<string>)
    requires multiset(a) == multiset(b)
    requires (forall s :: s in a ==> s in delisted) && (forall s :: s in b ==> s in delisted)
    ensures multiset(DatesFor(delisted, a)) == multiset(DatesFor(delisted, b))
  {
    var f := (s: string) => if s in delisted then delisted[s] else 0;
    MapPermutes(f, a, b);
    assert forall i :: 0 <= i < |a| ==> a[i] in a;
    assert forall i :: 0 <= i < |b| ==> b[i] in b;
    assert Map(f, a) == DatesFor(delisted, a);
    assert Map(f, b) == DatesFor(delisted, b);
  }

  lemma DatesOfJoined(deletes: seq<Event>, adds: seq<Event>, gone: seq<int>, come: seq<int>)
    requires |deletes| == |gone| && |adds| == |come|
    requires forall i :: 0 <= i < |deletes| ==> deletes[i].action == Delete && deletes[i].date == gone[i]
    requires forall i :: 0 <= i < |adds| ==> adds[i].action == Add && adds[i].date == come[i]
    ensures DatesOf(deletes + adds, Delete) == gone && DatesOf(deletes + adds, Add) == come
  {
    DatesOfSplit(deletes, adds, Delete);
    DatesOfSplit(deletes, adds, Add);
    DatesOfUniform(deletes, gone, Delete, Add);
    DatesOfUniform(adds, come, Add, Delete);
  }

  /** The dates of the deletes and of the adds in the produced events. */
  lemma TerminationDates(outgoing: seq<Company>, incoming: seq<Company>, delisted: map<string, int>,
                         distinct: seq<string>, events: seq<Event>)
    requires TerminationEvents(outgoing, incoming, delisted, distinct, events)
    ensures DatesOf(events, Delete) == DatesFor(delisted, Symbols(outgoing))
    ensures DatesOf(events, Add) == Sort(IntLeq, DatesFor(delisted, distinct))
  {
    var n := |outgoing|;
    assert events == events[..n] + events[n..];
    DatesOfJoined(events[..n], events[n..], DatesFor(delisted, Symbols(outgoing)),
                  Sort(IntLeq, DatesFor(delisted, distinct)));
  }

  /** Adds and deletes balance date by date exactly when the outgoing symbols are distinct. */
  lemma BalancedIffDistinct(outgoing: seq<Company>, incoming: seq<Company>, delisted: map<string, int>,
                            distinct: seq<string>, events: seq<Event>)
    requires TerminationEvents(outgoing, incoming, delisted, distinct, events)
    ensures multiset(DatesOf(events, Add)) == multiset(DatesOf(events, Delete)) <==> Distinct(Symbols(outgoing))
  {
    var symbols := Symbols(outgoing);
    TerminationDates(outgoing, incoming, delisted, distinct, events);
    SortPermutes(IntLeq, DatesFor(delisted, distinct));
    FewerDistinct(symbols, distinct, delisted.Keys);
    if multiset(DatesOf(events, Add)) == multiset(DatesOf(events, Delete)) {
      assert |multiset(DatesOf(events, Add))| == |distinct|;
      assert |multiset(DatesOf(events, Delete))| == |symbols|;
    }
    if Distinct(symbols) {
      SameElements(symbols, distinct);
      DatesPermute(delisted, symbols, distinct);
    }
  }

  /** A notice that names one outgoing symbol twice deletes it twice and adds only once. */
  lemma RepeatedSymbolUnbalanced()
    ensures var outgoing := [Company("A", "600001"), Company("A", "600001")];
            var incoming := [Company("B", "600002"), Company("C", "600003")];
            var events := [Event(10, "600001", Delete, "A"), Event(10, "600001", Delete, "A"),
                           Event(10, "600002", Add, "B")];
            && TerminationEvents(outgoing, incoming, map["600001" := 10], ["600001"], events)
            && multiset(DatesOf(events, Add)) != multiset(DatesOf(events, Delete))
  {
    var outgoing := [Company("A", "600001"), Company("A", "600001")];
    var incoming := [Company("B", "600002"), Company("C", "600003")];
    var gone, come := Event(10, "600001", Delete, "A"), Event(10, "600002", Add, "B");
    var delisted := map["600001" := 10];
    assert Symbols(outgoing) == ["600001", "600001"];
    assert DatesFor(delisted, ["600001"]) == [10];
    assert [10][1..] == [] && Sort(IntLeq, [10]) == [10];
    assert [gone, gone, come][..2] == [gone, gone] && [gone, gone, come][2..] == [come];
    assert TerminationEvents(outgoing, incoming, delisted, ["600001"], [gone, gone, come]);
    assert Symbols(outgoing)[0] == Symbols(outgoing)[1];
    BalancedIffDistinct(outgoing, incoming, delisted, ["600001"], [gone, gone, come]);
  }

  lemma SameElements(a: seq<string>, b: seq<string>)
    requires Distinct(a) && Distinct(b) && (set x | x in a) == (set x | x in b)
    ensures multiset(a) == multiset(b)
  {
    DistinctCounts(a);
    DistinctCounts(b);
    var s := set x | x in a;
    assert forall x :: x in a <==> x in s;
    assert forall x :: x in b <==> x in s;
    assert forall x :: multiset(a)[x] == multiset(b)[x];
  }

  /** How many dates fall on or before a day. */
  ghost function UpTo(dates: seq<int>, day: int): nat {
    |Filter((d: int) => d <= day, dates)|
  }

  lemma {:induction false} UpToPermuted(a: seq<int>, b: seq<int>, day: int)
    requires multiset(a) == multiset(b)
    ensures UpTo(a, day) == UpTo(b, day)
  {
    var keep := (d: int) => d <= day;
    forall x ensures multiset(Filter(keep, a))[x] == multiset(Filter(keep, b))[x] {
      FilterCounts(keep, a, x);
      FilterCounts(keep, b, x);
    }
    assert multiset(Filter(keep, a)) == multiset(Filter(keep, b));
    assert |multiset(Filter(keep, a))| == |multiset(Filter(keep, b))|;
  }

  /** With distinct outgoing symbols the index never gains or loses members on balance: up to any
      day as many adds as deletes have taken effect. */
  lemma CumulativeBalance(outgoing: seq<Company>, incoming: seq<Company>, delisted: map<string, int>,
                          distinct: seq<string>, events: seq<Event>, day: int)
    requires TerminationEvents(outgoing, incoming, delisted, distinct, events)
    requires Distinct(Symbols(outgoing))
    ensures UpTo(DatesOf(events, Add), day) == UpTo(DatesOf(events, Delete), day)
  {
    BalancedIffDistinct(outgoing, incoming, delisted, distinct, events);
    UpToPermuted(DatesOf(events, Add), DatesOf(events, Delete), day);
  }
}

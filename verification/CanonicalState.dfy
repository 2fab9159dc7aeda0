/** The canonical session state and its comparison,
    scripts/run_lean_paper_walkforward_acceptance.py:414-511, 997-1005 and
    scripts/run_level5_audit.py:758-762. The JSON text of a canonical row and the digest of a
    canonical state are parameters, assumed free of collisions where that matters. */
module CanonicalState {
  import opened Wrappers
  import opened Sorting

  /** A stored value; floating point has a negative zero besides the numbers. */
  datatype Value = Null | Bool(b: bool) | Number(x: real) | NegativeZero | Text(s: string)

  type Row = map<string, Value>

  /** An entry of a session's record list; entries that are not objects are skipped. */
  datatype Entry = Object(row: Row) | NotObject

  /** A canonical value: a rounded number is a whole count of units of 1e-8, or a negative zero. */
  datatype Cell = NullCell | BoolCell(b: bool) | Units(n: int) | MinusZero | TextCell(s: string)

  type CanonicalRow = map<string, Cell>

  /** To the nearest integer, ties to even. */
  function RoundHalfEven(y: real): int {
    var n := y.Floor;
    if y - n as real < 0.5 || (y - n as real == 0.5 && n % 2 == 0) then n else n + 1
  }

  /** `round(x, 8)`, which keeps the sign of a negative number that it rounds to zero. */
  function Rounded(x: real): Cell {
    var n := RoundHalfEven(x * 100000000.0);
    if n == 0 && x < 0.0 then MinusZero else Units(n)
  }

  /** `_canonical_number`. */
  function CanonicalNumber(v: Value): Cell {
    match v
    case Null => NullCell
    case Bool(b) => BoolCell(b)
    case Number(x) => Rounded(x)
    case NegativeZero => MinusZero
    case Text(s) => TextCell(s)
  }

  /** The value a canonical cell stands for. */
  function Reading(c: Cell): Value {
    match c
    case NullCell => Null
    case BoolCell(b) => Bool(b)
    case Units(n) => Number(n as real / 100000000.0)
    case MinusZero => NegativeZero
    case TextCell(s) => Text(s)
  }

  function Field(row: Row, f: string): Value {
    if f in row then row[f] else Null
  }

  function Project(fields: seq<string>, row: Row): CanonicalRow {
    map f | f in fields :: CanonicalNumber(Field(row, f))
  }

  predicate IsObject(e: Entry) {
    e.Object?
  }

  function RowOf(e: Entry): Row {
    if e.Object? then e.row else map[]
  }

  /** The projected and rounded rows, in record order. */
  function Projected(entries: seq<Entry>, fields: seq<string>): seq<CanonicalRow> {
    Map((e: Entry) => Project(fields, RowOf(e)), Filter(IsObject, entries))
  }

  function ByText(encode: CanonicalRow -> string): (CanonicalRow, CanonicalRow) -> bool {
    (a: CanonicalRow, b: CanonicalRow) => StringLeq(encode(a), encode(b))
  }

  /** `_canonical_rows`. */
  function CanonicalRows(encode: CanonicalRow -> string, entries: seq<Entry>, fields: seq<string>): seq<CanonicalRow> {
    Sort(ByText(encode), Projected(entries, fields))
  }

  datatype Session = Session(
    orders: seq<Entry>, fills: seq<Entry>, ledger: seq<Entry>, snapshots: seq<Entry>, reconciliations: seq<Entry>)

  datatype Canonical = Canonical(
    orders: seq<CanonicalRow>, fills: seq<CanonicalRow>, ledger: seq<CanonicalRow>, snapshots: seq<CanonicalRow>,
    reconciliations: seq<CanonicalRow>)

  const ORDER_FIELDS :=
    ["trade_date", "symbol", "side", "quantity", "order_price", "fill_price", "fee", "status", "reason"]
  const FILL_FIELDS :=
    ["trade_date", "quantity", "price", "fee", "tax", "slippage", "fee_model_version", "matching_contract"]
  const LEDGER_FIELDS :=
    ["trade_date", "entry_type", "asset", "symbol", "quantity", "amount", "currency",
     "debit_account", "credit_account"]
  const SNAPSHOT_FIELDS := ["trade_date", "cash", "market_value", "equity", "benchmark_symbol"]
  const RECONCILIATION_FIELDS :=
    ["trade_date", "status", "opening_cash", "ledger_cash_movement", "closing_cash", "cash_drift", "position_drift",
     "order_fill_ok", "fill_ledger_ok", "ledger_cash_ok", "ledger_positions_ok", "snapshot_ok", "daily_report_ok"]

  /** `_canonical_session_state`. */
  function CanonicalSession(encode: CanonicalRow -> string, s: Session): Canonical {
    Canonical(CanonicalRows(encode, s.orders, ORDER_FIELDS), CanonicalRows(encode, s.fills, FILL_FIELDS),
              CanonicalRows(encode, s.ledger, LEDGER_FIELDS), CanonicalRows(encode, s.snapshots, SNAPSHOT_FIELDS),
              CanonicalRows(encode, s.reconciliations, RECONCILIATION_FIELDS))
  }

  lemma ByTextOrder(encode: CanonicalRow -> string)
    ensures Preorder(ByText(encode))
    ensures Injective(encode) ==> Antisymmetric(ByText(encode))
  {
    StringOrder();
    var leq := ByText(encode);
    forall a, b ensures leq(a, b) || leq(b, a) {
      StringTotal(encode(a), encode(b));
    }
    forall a, b, c | leq(a, b) && leq(b, c) ensures leq(a, c) {
      StringTransitive(encode(a), encode(b), encode(c));
    }
    if Injective(encode) {
      forall a, b | leq(a, b) && leq(b, a) ensures a == b {
        StringAntisymmetric(encode(a), encode(b));
      }
    }
  }

  /** One record kind: equal canonical rows means equal projected rows, order aside. */
  lemma RowsEqualIff(encode: CanonicalRow -> string, a: seq<Entry>, b: seq<Entry>, fields: seq<string>)
    requires Injective(encode)
    ensures CanonicalRows(encode, a, fields) == CanonicalRows(encode, b, fields) <==>
            multiset(Projected(a, fields)) == multiset(Projected(b, fields))
  {
    ByTextOrder(encode);
    var leq := ByText(encode);
    var p, q := Projected(a, fields), Projected(b, fields);
    SortPermutes(leq, p);
    SortPermutes(leq, q);
    if multiset(p) == multiset(q) {
      SortOfPermutation(leq, p, q);
    }
  }

  /** Two sessions hold the same records up to order, rounding and fields outside the projection,
      zeros of different sign being different. */
  ghost predicate Equivalent(a: Session, b: Session) {
    && multiset(Projected(a.orders, ORDER_FIELDS)) == multiset(Projected(b.orders, ORDER_FIELDS))
    && multiset(Projected(a.fills, FILL_FIELDS)) == multiset(Projected(b.fills, FILL_FIELDS))
    && multiset(Projected(a.ledger, LEDGER_FIELDS)) == multiset(Projected(b.ledger, LEDGER_FIELDS))
    && multiset(Projected(a.snapshots, SNAPSHOT_FIELDS)) == multiset(Projected(b.snapshots, SNAPSHOT_FIELDS))
    && multiset(Projected(a.reconciliations, RECONCILIATION_FIELDS)) ==
       multiset(Projected(b.reconciliations, RECONCILIATION_FIELDS))
  }

  lemma CanonicalEqualIff(encode: CanonicalRow -> string, a: Session, b: Session)
    requires Injective(encode)
    ensures CanonicalSession(encode, a) == CanonicalSession(encode, b) <==> Equivalent(a, b)
  {
    RowsEqualIff(encode, a.orders, b.orders, ORDER_FIELDS);
    RowsEqualIff(encode, a.fills, b.fills, FILL_FIELDS);
    RowsEqualIff(encode, a.ledger, b.ledger, LEDGER_FIELDS);
    RowsEqualIff(encode, a.snapshots, b.snapshots, SNAPSHOT_FIELDS);
    RowsEqualIff(encode, a.reconciliations, b.reconciliations, RECONCILIATION_FIELDS);
  }

  /** Level 5's `canonicalEquivalent`: a non-empty digest equal to the clean run's. */
  predicate DigestsAgree(faulted: string, clean: string) {
    faulted != "" && faulted == clean
  }

  /** With collision-free encodings the digest comparison decides exactly equivalence. */
  lemma DigestDecidesEquivalence(encode: CanonicalRow -> string, digest: Canonical -> string,
                                 faulted: Session, clean: Session)
    requires Injective(encode) && Injective(digest) && (forall c :: digest(c) != "")
    ensures DigestsAgree(digest(CanonicalSession(encode, faulted)), digest(CanonicalSession(encode, clean))) <==>
            Equivalent(faulted, clean)
    ensures forall d :: !DigestsAgree("", d)
  {
    CanonicalEqualIff(encode, faulted, clean);
  }

  // ----- What the projection compares -----

  /** Objects are projected in record order, other entries skipped. */
  lemma ProjectedMeaning(row: Row, rest: seq<Entry>, fields: seq<string>)
    ensures Projected([], fields) == []
    ensures Projected([Object(row)] + rest, fields) == [Project(fields, row)] + Projected(rest, fields)
    ensures Projected([NotObject] + rest, fields) == Projected(rest, fields)
  {
    assert ([Object(row)] + rest)[1..] == rest && ([NotObject] + rest)[1..] == rest;
    assert Filter(IsObject, [Object(row)] + rest) == [Object(row)] + Filter(IsObject, rest);
  }

  /** A value of a record; a field that it lacks counts as null. */
  ghost function ValueIn(row: Row, f: string): Value {
    if f in row then row[f] else Null
  }

  /** Two records have one projection exactly when their values in the listed fields are canonically
      the same, whatever else they hold. */
  lemma ProjectMeaning(fields: seq<string>, a: Row, b: Row)
    ensures Project(fields, a) == Project(fields, b) <==>
            forall f :: f in fields ==> CanonicallySame(ValueIn(a, f), ValueIn(b, f))
  {
    forall f | f in fields
      ensures Project(fields, a)[f] == Project(fields, b)[f] <==> CanonicallySame(ValueIn(a, f), ValueIn(b, f))
    {
      CellsMeaning(ValueIn(a, f), ValueIn(b, f));
    }
    if Project(fields, a) == Project(fields, b) {
      assert forall f :: f in fields ==> Project(fields, a)[f] == Project(fields, b)[f];
    }
  }

  /** `n` is `x` rounded to units of 1e-8: the nearest whole count, the even one of two. */
  ghost predicate RoundsTo(x: real, n: int) {
    var d := n as real - x * 100000000.0;
    -0.5 <= d <= 0.5 && (d == 0.5 || d == -0.5 ==> n % 2 == 0)
  }

  /** A negative number, or negative zero, that rounds to nothing. */
  ghost predicate NegativeNothing(v: Value) {
    v == NegativeZero || (v.Number? && v.x < 0.0 && RoundsTo(v.x, 0))
  }

  /** Two values are canonically the same: equal if neither is a number; numbers if they round to
      the same count and, where that is nothing, have the same sign. */
  ghost predicate CanonicallySame(a: Value, b: Value) {
    || a == b
    || (NegativeNothing(a) && NegativeNothing(b))
    || (a.Number? && b.Number? && !NegativeNothing(a) && !NegativeNothing(b) &&
        exists n :: RoundsTo(a.x, n) && RoundsTo(b.x, n))
  }

  lemma RoundHalfEvenMeaning(x: real, n: int)
    ensures RoundHalfEven(x * 100000000.0) == n <==> RoundsTo(x, n)
  {
    var y := x * 100000000.0;
    var m := RoundHalfEven(y);
    assert RoundsTo(x, m);
  }

  lemma CellsMeaning(a: Value, b: Value)
    ensures CanonicalNumber(a) == CanonicalNumber(b) <==> CanonicallySame(a, b)
  {
    if a.Number? {
      RoundHalfEvenMeaning(a.x, RoundHalfEven(a.x * 100000000.0));
      RoundHalfEvenMeaning(a.x, 0);
    }
    if b.Number? {
      RoundHalfEvenMeaning(b.x, RoundHalfEven(b.x * 100000000.0));
      RoundHalfEvenMeaning(b.x, 0);
    }
    if a.Number? && b.Number? {
      forall n ensures RoundHalfEven(a.x * 100000000.0) == n <==> RoundsTo(a.x, n) { RoundHalfEvenMeaning(a.x, n); }
      forall n ensures RoundHalfEven(b.x * 100000000.0) == n <==> RoundsTo(b.x, n) { RoundHalfEvenMeaning(b.x, n); }
    }
  }

  /** The fields that are compared, kind by kind. */
  lemma FieldLists(f: string)
    ensures f in ORDER_FIELDS <==>
            || f == "trade_date" || f == "symbol" || f == "side" || f == "quantity" || f == "order_price"
            || f == "fill_price" || f == "fee" || f == "status" || f == "reason"
    ensures f in FILL_FIELDS <==>
            || f == "trade_date" || f == "quantity" || f == "price" || f == "fee" || f == "tax" || f == "slippage"
            || f == "fee_model_version" || f == "matching_contract"
    ensures f in LEDGER_FIELDS <==>
            || f == "trade_date" || f == "entry_type" || f == "asset" || f == "symbol" || f == "quantity"
            || f == "amount" || f == "currency" || f == "debit_account" || f == "credit_account"
    ensures f in SNAPSHOT_FIELDS <==>
            f == "trade_date" || f == "cash" || f == "market_value" || f == "equity" || f == "benchmark_symbol"
    ensures f in RECONCILIATION_FIELDS <==>
            || f == "trade_date" || f == "status" || f == "opening_cash" || f == "ledger_cash_movement"
            || f == "closing_cash" || f == "cash_drift" || f == "position_drift" || f == "order_fill_ok"
            || f == "fill_ledger_ok" || f == "ledger_cash_ok" || f == "ledger_positions_ok" || f == "snapshot_ok"
            || f == "daily_report_ok"
  {
  }

  /** A session with one record, in the ledger. */
  function LedgerSession(row: Row): Session {
    Session([], [], [Object(row)], [], [])
  }

  /** Two ledger records with different amounts make different sessions, whatever their digests. */
  lemma LedgerAmountMatters(encode: CanonicalRow -> string, digest: Canonical -> string, a: Row, b: Row)
    requires Injective(encode) && Injective(digest) && (forall c :: digest(c) != "")
    requires !CanonicallySame(ValueIn(a, "amount"), ValueIn(b, "amount"))
    ensures !DigestsAgree(digest(CanonicalSession(encode, LedgerSession(a))),
                          digest(CanonicalSession(encode, LedgerSession(b))))
  {
    FieldLists("amount");
    ProjectMeaning(LEDGER_FIELDS, a, b);
    ProjectedMeaning(a, [], LEDGER_FIELDS);
    ProjectedMeaning(b, [], LEDGER_FIELDS);
    var p, q := Project(LEDGER_FIELDS, a), Project(LEDGER_FIELDS, b);
    assert [Object(a)] + [] == [Object(a)] && [Object(b)] + [] == [Object(b)];
    assert multiset([p])[p] == 1 && multiset([q])[p] == 0;
    DigestDecidesEquivalence(encode, digest, LedgerSession(a), LedgerSession(b));
  }

  // ----- The sign of a zero -----

  /** A cell as a number: both zeros are the same. */
  function Unsigned(c: Cell): Cell {
    if c == MinusZero then Units(0) else c
  }

  function UnsignedRow(row: CanonicalRow): CanonicalRow {
    map f | f in row :: Unsigned(row[f])
  }

  function UnsignedRows(rows: seq<CanonicalRow>): seq<CanonicalRow> {
    Map(UnsignedRow, rows)
  }

  /** The same with the sign of zeros left out: what rounding to eight decimals is meant to compare. */
  ghost predicate SameRows(a: seq<Entry>, b: seq<Entry>, fields: seq<string>) {
    multiset(UnsignedRows(Projected(a, fields))) == multiset(UnsignedRows(Projected(b, fields)))
  }

  ghost predicate NumericallyEquivalent(a: Session, b: Session) {
    && SameRows(a.orders, b.orders, ORDER_FIELDS) && SameRows(a.fills, b.fills, FILL_FIELDS)
    && SameRows(a.ledger, b.ledger, LEDGER_FIELDS) && SameRows(a.snapshots, b.snapshots, SNAPSHOT_FIELDS)
    && SameRows(a.reconciliations, b.reconciliations, RECONCILIATION_FIELDS)
  }

  /** Equal digests mean equal numbers. */
  lemma EquivalentNumerically(a: Session, b: Session)
    requires Equivalent(a, b)
    ensures NumericallyEquivalent(a, b)
  {
    MapPermutes(UnsignedRow, Projected(a.orders, ORDER_FIELDS), Projected(b.orders, ORDER_FIELDS));
    MapPermutes(UnsignedRow, Projected(a.fills, FILL_FIELDS), Projected(b.fills, FILL_FIELDS));
    MapPermutes(UnsignedRow, Projected(a.ledger, LEDGER_FIELDS), Projected(b.ledger, LEDGER_FIELDS));
    MapPermutes(UnsignedRow, Projected(a.snapshots, SNAPSHOT_FIELDS), Projected(b.snapshots, SNAPSHOT_FIELDS));
    MapPermutes(UnsignedRow, Projected(a.reconciliations, RECONCILIATION_FIELDS),
                Projected(b.reconciliations, RECONCILIATION_FIELDS));
  }

  /** A value that is a negative zero once rounded. */
  predicate RoundsToMinusZero(v: Value) {
    v == NegativeZero || (v.Number? && v.x < 0.0 && RoundHalfEven(v.x * 100000000.0) == 0)
  }

  /** No listed field of any record rounds to a negative zero. */
  predicate NoMinusZero(entries: seq<Entry>, fields: seq<string>) {
    forall e, f :: e in entries && e.Object? && f in fields ==> !RoundsToMinusZero(Field(e.row, f))
  }

  predicate FreeOfMinusZero(s: Session) {
    && NoMinusZero(s.orders, ORDER_FIELDS) && NoMinusZero(s.fills, FILL_FIELDS)
    && NoMinusZero(s.ledger, LEDGER_FIELDS) && NoMinusZero(s.snapshots, SNAPSHOT_FIELDS)
    && NoMinusZero(s.reconciliations, RECONCILIATION_FIELDS)
  }

  lemma RowsUnsigned(entries: seq<Entry>, fields: seq<string>)
    requires NoMinusZero(entries, fields)
    ensures UnsignedRows(Projected(entries, fields)) == Projected(entries, fields)
  {
    var kept := Filter(IsObject, entries);
    FilterMembers(IsObject, entries);
    forall i | 0 <= i < |kept| ensures UnsignedRow(Project(fields, RowOf(kept[i]))) == Project(fields, RowOf(kept[i])) {
      assert kept[i] in kept;
      RowUnsigned(kept[i].row, fields);
    }
  }

  lemma RowUnsigned(row: Row, fields: seq<string>)
    requires forall f :: f in fields ==> !RoundsToMinusZero(Field(row, f))
    ensures UnsignedRow(Project(fields, row)) == Project(fields, row)
  {
  }

  /** Where no projected field rounds to a negative zero, the digests compare numbers. */
  lemma NumericIff(a: Session, b: Session)
    requires FreeOfMinusZero(a) && FreeOfMinusZero(b)
    ensures Equivalent(a, b) <==> NumericallyEquivalent(a, b)
  {
    RowsUnsigned(a.orders, ORDER_FIELDS);
    RowsUnsigned(b.orders, ORDER_FIELDS);
    RowsUnsigned(a.fills, FILL_FIELDS);
    RowsUnsigned(b.fills, FILL_FIELDS);
    RowsUnsigned(a.ledger, LEDGER_FIELDS);
    RowsUnsigned(b.ledger, LEDGER_FIELDS);
    RowsUnsigned(a.snapshots, SNAPSHOT_FIELDS);
    RowsUnsigned(b.snapshots, SNAPSHOT_FIELDS);
    RowsUnsigned(a.reconciliations, RECONCILIATION_FIELDS);
    RowsUnsigned(b.reconciliations, RECONCILIATION_FIELDS);
  }

  /** A session with one reconciliation of the given cash drift. */
  function DriftSession(drift: real): Session {
    Session([], [], [], [], [Object(map["cash_drift" := Number(drift)])])
  }

  lemma DriftProjected(drift: real)
    ensures Projected(DriftSession(drift).reconciliations, RECONCILIATION_FIELDS) ==
            [Project(RECONCILIATION_FIELDS, map["cash_drift" := Number(drift)])]
  {
    var e := Object(map["cash_drift" := Number(drift)]);
    assert [e][1..] == [];
    assert Filter(IsObject, [e]) == [e];
  }

  lemma DriftCells(drift: real)
    ensures var row := Project(RECONCILIATION_FIELDS, map["cash_drift" := Number(drift)]);
            var blank: CanonicalRow := map f | f in RECONCILIATION_FIELDS :: NullCell;
            && row == blank["cash_drift" := Rounded(drift)]
            && UnsignedRow(row) == blank["cash_drift" := Unsigned(Rounded(drift))]
  {
    assert RECONCILIATION_FIELDS[5] == "cash_drift" && "cash_drift" in RECONCILIATION_FIELDS;
  }

  /** A drift of zero and one of -3.6e-12 are equal to eight decimals, but their digests differ. */
  lemma SignOfZeroDiffers(encode: CanonicalRow -> string, digest: Canonical -> string)
    requires Injective(encode) && Injective(digest) && (forall c :: digest(c) != "")
    ensures var a, b := DriftSession(0.0), DriftSession(-0.0000000000036);
            && NumericallyEquivalent(a, b)
            && !DigestsAgree(digest(CanonicalSession(encode, a)), digest(CanonicalSession(encode, b)))
  {
    var x, y := 0.0, -0.0000000000036;
    var a, b := DriftSession(x), DriftSession(y);
    assert Rounded(x) == Units(0) && Rounded(y) == MinusZero;
    DriftProjected(x);
    DriftProjected(y);
    DriftCells(x);
    DriftCells(y);
    var p := Projected(a.reconciliations, RECONCILIATION_FIELDS);
    var q := Projected(b.reconciliations, RECONCILIATION_FIELDS);
    assert UnsignedRows(p) == [UnsignedRow(p[0])] && UnsignedRows(q) == [UnsignedRow(q[0])];
    assert p[0]["cash_drift"] != q[0]["cash_drift"];
    assert q[0] !in multiset(p) && q[0] in multiset(q);
    DigestDecidesEquivalence(encode, digest, a, b);
  }

  // ----- Canonical values are stable -----

  /** Rounding is to the nearest unit: it moves a number by at most half a unit, and a number that
      is closer than half a unit to a whole count is rounded to it. */
  lemma RoundingNearest(y: real, n: int)
    ensures -0.5 <= RoundHalfEven(y) as real - y <= 0.5
    ensures -0.5 < n as real - y < 0.5 ==> RoundHalfEven(y) == n
  {
  }

  /** A canonical cell is its own canonical form. */
  lemma RoundingStable(c: Cell)
    ensures CanonicalNumber(Reading(c)) == c
  {
    if c.Units? {
      assert c.n as real / 100000000.0 * 100000000.0 == c.n as real;
      RoundingNearest(c.n as real, c.n);
    }
  }

  function ReadingOf(row: CanonicalRow): Row {
    map f | f in row :: Reading(row[f])
  }

  /** Canonicalizing a canonical row again changes nothing. */
  lemma ProjectStable(fields: seq<string>, row: Row)
    ensures Project(fields, ReadingOf(Project(fields, row))) == Project(fields, row)
  {
    var once := Project(fields, row);
    forall f | f in fields ensures CanonicalNumber(Field(ReadingOf(once), f)) == once[f] {
      RoundingStable(once[f]);
    }
  }

  /** A session read back from its canonical state. */
  function Stored(c: Canonical): Session {
    Session(StoredRows(c.orders), StoredRows(c.fills), StoredRows(c.ledger), StoredRows(c.snapshots),
            StoredRows(c.reconciliations))
  }

  function StoredRows(rows: seq<CanonicalRow>): seq<Entry> {
    Map((r: CanonicalRow) => Object(ReadingOf(r)), rows)
  }

  lemma FilterObjects(rows: seq<CanonicalRow>)
    ensures Filter(IsObject, StoredRows(rows)) == StoredRows(rows)
  {
    FilterAll(IsObject, StoredRows(rows));
  }

  lemma RowsStored(encode: CanonicalRow -> string, entries: seq<Entry>, fields: seq<string>)
    ensures Projected(StoredRows(CanonicalRows(encode, entries, fields)), fields) ==
            CanonicalRows(encode, entries, fields)
  {
    var rows := CanonicalRows(encode, entries, fields);
    FilterObjects(rows);
    SortPermutes(ByText(encode), Projected(entries, fields));
    forall i | 0 <= i < |rows| ensures Project(fields, ReadingOf(rows[i])) == rows[i] {
      SameMembers(rows, Projected(entries, fields), rows[i]);
      var k :| 0 <= k < |Projected(entries, fields)| && Projected(entries, fields)[k] == rows[i];
      ProjectStable(fields, RowOf(Filter(IsObject, entries)[k]));
    }
  }

  /** A session and what is read back from its canonical state are equivalent, so comparing stored
      canonical states compares the sessions they came from. */
  lemma StoredEquivalent(encode: CanonicalRow -> string, s: Session)
    ensures Equivalent(Stored(CanonicalSession(encode, s)), s)
  {
    RowsStored(encode, s.orders, ORDER_FIELDS);
    RowsStored(encode, s.fills, FILL_FIELDS);
    RowsStored(encode, s.ledger, LEDGER_FIELDS);
    RowsStored(encode, s.snapshots, SNAPSHOT_FIELDS);
    RowsStored(encode, s.reconciliations, RECONCILIATION_FIELDS);
    SortPermutes(ByText(encode), Projected(s.orders, ORDER_FIELDS));
    SortPermutes(ByText(encode), Projected(s.fills, FILL_FIELDS));
    SortPermutes(ByText(encode), Projected(s.ledger, LEDGER_FIELDS));
    SortPermutes(ByText(encode), Projected(s.snapshots, SNAPSHOT_FIELDS));
    SortPermutes(ByText(encode), Projected(s.reconciliations, RECONCILIATION_FIELDS));
  }
}

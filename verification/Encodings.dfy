/** The encodings assumed for canonical states exist: rows and states have a self-delimiting text,
    so the assumptions behind the comparison of digests can be met. */
module Encodings {
  import opened Wrappers
  import opened CanonicalState

  /** The text of a value shows where it ends. */
  ghost predicate SelfDelimiting<T(!new)>(f: T -> string) {
    forall a, b, x, y :: f(a) + x == f(b) + y ==> a == b && x == y
  }

  lemma SelfDelimitingInjective<T(!new)>(f: T -> string)
    requires SelfDelimiting(f)
    ensures Injective(f)
  {
    forall a, b | f(a) == f(b) ensures a == b {
      assert f(a) + [] == f(b) + [];
    }
  }

  function ListCode<T>(f: T -> string, s: seq<T>): string {
    if s == [] then "]" else "," + f(s[0]) + ListCode(f, s[1..])
  }

  lemma {:induction false} ListDelimits<T(!new)>(f: T -> string, a: seq<T>, b: seq<T>, x: string, y: string)
    requires SelfDelimiting(f) && ListCode(f, a) + x == ListCode(f, b) + y
    ensures a == b && x == y
  {
    var p, q := ListCode(f, a) + x, ListCode(f, b) + y;
    assert p[0] == (if a == [] then ']' else ',') && q[0] == (if b == [] then ']' else ',');
    if a == [] {
      assert p[1..] == x && q[1..] == y;
    } else {
      assert p[1..] == f(a[0]) + (ListCode(f, a[1..]) + x);
      assert q[1..] == f(b[0]) + (ListCode(f, b[1..]) + y);
      ListDelimits(f, a[1..], b[1..], x, y);
      assert a == [a[0]] + a[1..] && b == [b[0]] + b[1..];
    }
  }

  function CharCode(c: char): string {
    [c]
  }

  lemma CharDelimits()
    ensures SelfDelimiting(CharCode)
  {
    forall a, b, x, y | CharCode(a) + x == CharCode(b) + y ensures a == b && x == y {
      assert (CharCode(a) + x)[0] == a && (CharCode(b) + y)[0] == b;
      assert (CharCode(a) + x)[1..] == x && (CharCode(b) + y)[1..] == y;
    }
  }

  function TextCode(s: string): string {
    ListCode(CharCode, s)
  }

  lemma TextDelimits(a: string, b: string, x: string, y: string)
    requires TextCode(a) + x == TextCode(b) + y
    ensures a == b && x == y
  {
    CharDelimits();
    ListDelimits(CharCode, a, b, x, y);
  }

  function Ticks(n: nat): string {
    seq(n, _ => '1')
  }

  /** A tag and a text that together determine the cell. */
  function Tagged(c: Cell): (char, string) {
    match c
    case NullCell => ('n', "")
    case BoolCell(b) => (if b then 't' else 'f', "")
    case Units(n) => if n >= 0 then ('+', Ticks(n)) else ('-', Ticks(-n))
    case MinusZero => ('z', "")
    case TextCell(s) => ('s', s)
  }

  lemma TaggedInjective(a: Cell, b: Cell)
    requires Tagged(a) == Tagged(b)
    ensures a == b
  {
    if a.Units? && b.Units? {
      assert |Tagged(a).1| == |Tagged(b).1|;
    }
  }

  function EntryCode(e: (string, Cell)): string {
    TextCode(e.0) + ([Tagged(e.1).0] + TextCode(Tagged(e.1).1))
  }

  lemma EntryDelimits()
    ensures SelfDelimiting(EntryCode)
  {
    forall a, b, x, y | EntryCode(a) + x == EntryCode(b) + y ensures a == b && x == y {
      var p, q := [Tagged(a.1).0] + TextCode(Tagged(a.1).1) + x, [Tagged(b.1).0] + TextCode(Tagged(b.1).1) + y;
      assert EntryCode(a) + x == TextCode(a.0) + p && EntryCode(b) + y == TextCode(b.0) + q;
      TextDelimits(a.0, b.0, p, q);
      assert p[0] == Tagged(a.1).0 && q[0] == Tagged(b.1).0;
      assert p[1..] == TextCode(Tagged(a.1).1) + x && q[1..] == TextCode(Tagged(b.1).1) + y;
      TextDelimits(Tagged(a.1).1, Tagged(b.1).1, x, y);
      TaggedInjective(a.1, b.1);
    }
  }

  /** `l` lists the entries of `row`. */
  ghost predicate Lists(l: seq<(string, Cell)>, row: CanonicalRow) {
    forall k, c :: (k, c) in l <==> k in row && row[k] == c
  }

  lemma {:induction false} Listable(row: CanonicalRow)
    ensures exists l :: Lists(l, row)
    decreases |row|
  {
    if row == map[] {
      assert Lists([], row);
    } else {
      var k :| k in row;
      var rest := row - {k};
      assert rest.Keys == row.Keys - {k};
      assert |rest.Keys| < |row.Keys|;
      Listable(rest);
      var l :| Lists(l, rest);
      assert Lists(l + [(k, row[k])], row);
    }
  }

  ghost function Entries(row: CanonicalRow): seq<(string, Cell)>
    ensures Lists(Entries(row), row)
  {
    Listable(row);
    var l :| Lists(l, row);
    l
  }

  ghost function RowCode(row: CanonicalRow): string {
    ListCode(EntryCode, Entries(row))
  }

  lemma SameEntries(a: CanonicalRow, b: CanonicalRow)
    requires Entries(a) == Entries(b)
    ensures a == b
  {
    assert forall k :: k in a ==> (k, a[k]) in Entries(a);
    assert forall k :: k in b ==> (k, b[k]) in Entries(b);
  }

  ghost function RowText(): CanonicalRow -> string {
    (r: CanonicalRow) => RowCode(r)
  }

  lemma RowDelimits()
    ensures SelfDelimiting(RowText())
  {
    EntryDelimits();
    forall a, b, x, y | RowText()(a) + x == RowText()(b) + y ensures a == b && x == y {
      ListDelimits(EntryCode, Entries(a), Entries(b), x, y);
      SameEntries(a, b);
    }
  }

  ghost function StateCode(c: Canonical): string {
    ListCode(RowText(), c.orders)
    + (ListCode(RowText(), c.fills)
       + (ListCode(RowText(), c.ledger)
          + (ListCode(RowText(), c.snapshots)
             + (ListCode(RowText(), c.reconciliations) + ""))))
  }

  lemma StateInjective(a: Canonical, b: Canonical)
    requires StateCode(a) == StateCode(b)
    ensures a == b
  {
    RowDelimits();
    var f := RowText();
    var r, q := ListCode(f, a.reconciliations) + "", ListCode(f, b.reconciliations) + "";
    var s, t := ListCode(f, a.snapshots) + r, ListCode(f, b.snapshots) + q;
    var l, m := ListCode(f, a.ledger) + s, ListCode(f, b.ledger) + t;
    var u, v := ListCode(f, a.fills) + l, ListCode(f, b.fills) + m;
    ListDelimits(f, a.orders, b.orders, u, v);
    ListDelimits(f, a.fills, b.fills, l, m);
    ListDelimits(f, a.ledger, b.ledger, s, t);
    ListDelimits(f, a.snapshots, b.snapshots, r, q);
    ListDelimits(f, a.reconciliations, b.reconciliations, "", "");
  }

  /** There are collision-free texts of canonical rows and of canonical states, never empty. */
  lemma EncodingsExist()
    ensures exists encode: CanonicalRow -> string, digest: Canonical -> string ::
              Injective(encode) && Injective(digest) && forall c :: digest(c) != ""
  {
    var encode := RowText();
    RowDelimits();
    SelfDelimitingInjective(encode);
    var digest := (c: Canonical) => StateCode(c);
    forall a, b | digest(a) == digest(b) ensures a == b { StateInjective(a, b); }
    assert Injective(digest);
  }
}

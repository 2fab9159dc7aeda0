/** ASCII text: `lower` and `strip`. */
module Text {
  import opened Sorting

  function LowerChar(c: char): char {
    if 'A' <= c <= 'Z' then c - 'A' + 'a' else c
  }

  function Lower(s: string): string {
    Map(LowerChar, s)
  }

  /** The ASCII characters that `strip()` removes. */
  predicate Space(c: char) {
    c == ' ' || '\t' <= c <= '\r' || '\U{1C}' <= c <= '\U{1F}'
  }

  function StripLeft(drop: char -> bool, s: string): string {
    if s != [] && drop(s[0]) then StripLeft(drop, s[1..]) else s
  }

  function StripRight(drop: char -> bool, s: string): string {
    if s != [] && drop(s[|s| - 1]) then StripRight(drop, s[..|s| - 1]) else s
  }

  /** `s.strip(chars)`. */
  function StripOf(drop: char -> bool, s: string): string {
    StripRight(drop, StripLeft(drop, s))
  }

  /** `s.strip()`. */
  function Strip(s: string): string {
    StripOf(Space, s)
  }

  predicate NotEmpty(s: string) {
    s != []
  }

  /** `[item.strip() for item in items if item.strip()]`. */
  function NonBlank(items: seq<string>): seq<string> {
    Filter(NotEmpty, Map(Strip, items))
  }

  lemma NonBlankExists(items: seq<string>)
    ensures NonBlank(items) != [] <==> exists a :: a in items && Strip(a) != ""
  {
    var stripped := Map(Strip, items);
    FilterMembers(NotEmpty, stripped);
    if NonBlank(items) != [] {
      assert NonBlank(items)[0] in NonBlank(items);
      var i :| 0 <= i < |stripped| && stripped[i] == NonBlank(items)[0];
      assert items[i] in items && Strip(items[i]) != "";
    }
    if a :| a in items && Strip(a) != "" {
      var i :| 0 <= i < |items| && items[i] == a;
      assert stripped[i] in stripped && NotEmpty(stripped[i]);
      assert stripped[i] in NonBlank(items);
    }
  }

  /** `list(dict.fromkeys(items))`: each item once, where it first occurs. */
  function Unique(items: seq<string>): seq<string> {
    if items == [] then []
    else
      var rest, last := Unique(items[..|items| - 1]), items[|items| - 1];
      if last in rest then rest else rest + [last]
  }

  /** Each item once, in the order in which the items first occur. */
  ghost predicate FirstOccurrences(u: seq<string>, items: seq<string>) {
    && Distinct(u) && (forall x :: x in u <==> x in items)
    && forall i, j :: 0 <= i < j < |u| ==> OccursBefore(items, u[i], u[j])
  }

  /** `x` occurs before `y` first does. */
  ghost predicate OccursBefore(items: seq<string>, x: string, y: string) {
    exists p :: 0 <= p < |items| && items[p] == x && y !in items[..p + 1]
  }

  lemma OccursLonger(items: seq<string>, last: string, x: string, y: string)
    requires OccursBefore(items, x, y)
    ensures OccursBefore(items + [last], x, y)
  {
    var p :| 0 <= p < |items| && items[p] == x && y !in items[..p + 1];
    assert (items + [last])[..p + 1] == items[..p + 1] && (items + [last])[p] == x;
  }

  lemma OccursAlready(items: seq<string>, x: string, last: string)
    requires x in items && last !in items
    ensures OccursBefore(items + [last], x, last)
  {
    var p :| 0 <= p < |items| && items[p] == x;
    assert (items + [last])[..p + 1] == items[..p + 1] && (items + [last])[p] == x;
  }

  lemma {:induction false} UniqueMeaning(items: seq<string>)
    ensures FirstOccurrences(Unique(items), items)
    ensures Unique(items) == [] <==> items == []
  {
    if items != [] {
      var front, last := items[..|items| - 1], items[|items| - 1];
      UniqueMeaning(front);
      assert items == front + [last];
      var u, v := Unique(front), Unique(items);
      forall i, j | 0 <= i < j < |v| ensures OccursBefore(items, v[i], v[j]) {
        if j < |u| {
          OccursLonger(front, last, u[i], u[j]);
        } else {
          assert u[i] in u;
          OccursAlready(front, u[i], last);
        }
      }
    }
  }

  // ----- What stripping and lower case mean -----

  /** `t` is `s` without the blanks around it. */
  ghost predicate Trimmed(s: string, t: string, blank: set<char>) {
    exists i, j :: TrimmedAt(s, t, blank, i, j)
  }

  ghost predicate TrimmedAt(s: string, t: string, blank: set<char>, i: int, j: int) {
    && 0 <= i <= j <= |s| && t == s[i..j]
    && (forall k :: 0 <= k < i ==> s[k] in blank) && (forall k :: j <= k < |s| ==> s[k] in blank)
    && (t != [] ==> t[0] !in blank && t[|t| - 1] !in blank)
  }

  lemma {:induction false} StripLeftAt(drop: char -> bool, s: string) returns (i: nat)
    ensures i <= |s| && StripLeft(drop, s) == s[i..] && forall k :: 0 <= k < i ==> drop(s[k])
    ensures i < |s| ==> !drop(s[i])
  {
    i := 0;
    if s != [] && drop(s[0]) {
      var n := StripLeftAt(drop, s[1..]);
      i := n + 1;
      assert s[1..][n..] == s[i..];
      assert forall k :: 0 < k < i ==> s[k] == s[1..][k - 1];
    }
  }

  lemma {:induction false} StripRightAt(drop: char -> bool, s: string) returns (j: nat)
    ensures j <= |s| && StripRight(drop, s) == s[..j] && forall k :: j <= k < |s| ==> drop(s[k])
    ensures j > 0 ==> !drop(s[j - 1])
  {
    j := |s|;
    if s != [] && drop(s[|s| - 1]) {
      j := StripRightAt(drop, s[..|s| - 1]);
      assert s[..|s| - 1][..j] == s[..j];
    }
  }

  lemma TrimmedUnique(s: string, t: string, u: string, blank: set<char>)
    requires Trimmed(s, t, blank) && Trimmed(s, u, blank)
    ensures t == u
  {
    var i, j :| TrimmedAt(s, t, blank, i, j);
    var a, b :| TrimmedAt(s, u, blank, a, b);
    if t != [] {
      assert s[i] !in blank && s[j - 1] !in blank;
      assert a <= i && j <= b;
    }
    if u != [] {
      assert s[a] !in blank && s[b - 1] !in blank;
      assert i <= a && b <= j;
    }
  }

  /** Stripping gives exactly the trimmed text. */
  lemma StripOfMeaning(drop: char -> bool, s: string, t: string, blank: set<char>)
    requires forall c :: drop(c) <==> c in blank
    ensures StripOf(drop, s) == t <==> Trimmed(s, t, blank)
  {
    var i := StripLeftAt(drop, s);
    var j := StripRightAt(drop, s[i..]);
    var r := StripOf(drop, s);
    assert r == s[i..i + j];
    assert forall k :: i + j <= k < |s| ==> s[k] == s[i..][k - i];
    assert j > 0 ==> s[i..][j - 1] == s[i + j - 1] == r[j - 1] && r[0] == s[i];
    assert TrimmedAt(s, r, blank, i, i + j);
    if Trimmed(s, t, blank) {
      TrimmedUnique(s, r, t, blank);
    }
  }

  const BLANKS: set<char> :=
    {' ', '\t', '\n', '\U{0B}', '\U{0C}', '\r', '\U{1C}', '\U{1D}', '\U{1E}', '\U{1F}'}

  lemma StripMeaning(s: string, t: string)
    ensures Strip(s) == t <==> Trimmed(s, t, BLANKS)
  {
    forall c ensures Space(c) <==> c in BLANKS { SpaceMeaning(c); }
    StripOfMeaning(Space, s, t, BLANKS);
  }

  lemma SpaceMeaning(c: char)
    ensures Space(c) <==> c in BLANKS
  {
    var n := c as int;
    assert '\t' as int == 9 && '\n' as int == 10 && '\r' as int == 13 && ' ' as int == 32;
    assert c in BLANKS <==> n in {9, 10, 11, 12, 13, 28, 29, 30, 31, 32} by {
      assert n == 9 ==> c == '\t';
      assert n == 10 ==> c == '\n';
      assert n == 11 ==> c == '\U{0B}';
      assert n == 12 ==> c == '\U{0C}';
      assert n == 13 ==> c == '\r';
    }
  }

  const UPPER: string := "ABCDEFGHIJKLMNOPQRSTUVWXYZ"
  const LOWER: string := "abcdefghijklmnopqrstuvwxyz"

  /** Lower case replaces each capital by its small letter and leaves the rest. */
  lemma LowerMeaning(s: string)
    ensures |Lower(s)| == |s|
    ensures forall i, k :: 0 <= i < |s| && 0 <= k < 26 && s[i] == UPPER[k] ==> Lower(s)[i] == LOWER[k]
    ensures forall i :: 0 <= i < |s| && s[i] !in UPPER ==> Lower(s)[i] == s[i]
  {
    forall i | 0 <= i < |s|
      ensures Lower(s)[i] == LowerChar(s[i])
      ensures forall k :: 0 <= k < 26 && s[i] == UPPER[k] ==> Lower(s)[i] == LOWER[k]
      ensures s[i] !in UPPER ==> Lower(s)[i] == s[i]
    {
      LowerCharMeaning(s[i]);
    }
  }

  lemma LowerCharMeaning(c: char)
    ensures forall k :: 0 <= k < 26 && c == UPPER[k] ==> LowerChar(c) == LOWER[k]
    ensures c !in UPPER ==> LowerChar(c) == c
  {
    Alphabets();
    if 'A' <= c <= 'Z' {
      assert UPPER[c as int - 'A' as int] == c;
    }
  }

  lemma Alphabets()
    ensures |UPPER| == 26 && |LOWER| == 26
    ensures forall k :: 0 <= k < 26 ==> UPPER[k] as int == 'A' as int + k && LOWER[k] as int == 'a' as int + k
  {
  }
}

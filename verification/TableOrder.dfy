/** The layered ordering of tables by foreign key in `_schema_snapshot`,
    scripts/generate_postgres_baseline.py:145-177. */
module TableOrder {
  import opened Sorting
  import opened Graphs

  /** The included tables, each with the table names its DDL references. */
  type Schema = map<Node, set<Node>>

  datatype Result<T> = Ordered(order: T) | CycleError(remaining: seq<Node>)

  /** References that constrain the order: to included tables other than the table itself. */
  function Dependencies(schema: Schema, t: Node): set<Node>
    requires t in schema
  {
    set d | d in schema[t] && d in schema && d != t
  }

  /** The references between different included tables. */
  ghost function DependencyGraph(schema: Schema): Graph {
    set t, d | t in schema && d in schema[t] && d in schema && d != t :: (t, d)
  }

  lemma DependencyEdges(schema: Schema, t: Node, d: Node)
    requires t in schema
    ensures d in Dependencies(schema, t) <==> (t, d) in DependencyGraph(schema)
  {
  }

  /** A closed list of at least two included tables, each referencing the next, a different one. */
  ghost predicate ReferenceLoop(schema: Schema, c: seq<Node>) {
    |c| >= 2 && forall i :: 0 <= i < |c| ==> RefersToNext(schema, c, i)
  }

  ghost predicate RefersToNext(schema: Schema, c: seq<Node>, i: nat)
    requires i < |c|
  {
    var next := if i + 1 < |c| then c[i + 1] else c[0];
    c[i] in schema && next in schema && next != c[i] && next in schema[c[i]]
  }

  ghost predicate NoLoop(schema: Schema) {
    forall c :: !ReferenceLoop(schema, c)
  }

  lemma LoopIsCycle(schema: Schema, c: seq<Node>)
    requires ReferenceLoop(schema, c)
    ensures Cycle(DependencyGraph(schema), c + [c[0]])
  {
    var p := c + [c[0]];
    forall i | 0 <= i < |p| - 1 ensures (p[i], p[i + 1]) in DependencyGraph(schema) {
      assert RefersToNext(schema, c, i);
    }
  }

  lemma CycleIsLoop(schema: Schema, p: seq<Node>)
    requires Cycle(DependencyGraph(schema), p)
    ensures ReferenceLoop(schema, p[..|p| - 1])
  {
    var c := p[..|p| - 1];
    assert (p[0], p[0 + 1]) in DependencyGraph(schema);
    forall i | 0 <= i < |c| ensures RefersToNext(schema, c, i) {
      assert (p[i], p[i + 1]) in DependencyGraph(schema);
    }
  }

  /** A cyclic dependency graph is one with a loop of references. */
  lemma AcyclicIffNoLoop(schema: Schema)
    ensures Acyclic(DependencyGraph(schema)) <==> NoLoop(schema)
  {
    if c :| ReferenceLoop(schema, c) {
      LoopIsCycle(schema, c);
    }
    if p :| Cycle(DependencyGraph(schema), p) {
      CycleIsLoop(schema, p);
    }
  }

  /** A chain of `k` dependencies starts at `t`. */
  ghost predicate ChainFrom(schema: Schema, t: Node, k: nat) {
    exists p :: Walk(DependencyGraph(schema), p) && p[0] == t && |p| == k + 1
  }

  /** The length of the longest dependency chain from `t` is `k`. */
  ghost predicate Depth(schema: Schema, t: Node, k: nat) {
    ChainFrom(schema, t, k) && forall m: nat :: ChainFrom(schema, t, m) ==> m <= k
  }

  ghost predicate LeadsToCycle(schema: Schema, t: Node) {
    exists p, c :: Cycle(DependencyGraph(schema), c) && WalkBetween(DependencyGraph(schema), p, t, c[0])
  }

  ghost function Flatten(rounds: seq<seq<Node>>): seq<Node> {
    if rounds == [] then [] else Flatten(rounds[..|rounds| - 1]) + rounds[|rounds| - 1]
  }

  /** Round `k` is the sorted list of the tables of depth `k`. */
  ghost predicate Layered(schema: Schema, rounds: seq<seq<Node>>) {
    && (forall k :: 0 <= k < |rounds| ==> rounds[k] != [] && IsSortedList(rounds[k], Layer(schema, k)))
    && (forall t :: t in schema ==> exists k :: 0 <= k < |rounds| && t in rounds[k])
  }

  ghost function Layer(schema: Schema, k: nat): set<Node> {
    set t | t in schema && Depth(schema, t, k)
  }

  // ----- Chains -----

  lemma ExtendChain(schema: Schema, t: Node, d: Node, k: nat)
    requires t in schema && d in Dependencies(schema, t) && ChainFrom(schema, d, k)
    ensures ChainFrom(schema, t, k + 1)
  {
    var g := DependencyGraph(schema);
    var p :| Walk(g, p) && p[0] == d && |p| == k + 1;
    var q := [t] + p;
    assert (t, d) in g;
    forall i | 0 <= i < |q| - 1 ensures (q[i], q[i + 1]) in g {
      if i > 0 {
        assert (p[i - 1], p[i - 1 + 1]) in g;
      }
    }
    assert Walk(g, q);
  }

  lemma ShortenChain(schema: Schema, t: Node, k: nat) returns (d: Node)
    requires t in schema && ChainFrom(schema, t, k + 1)
    ensures d in Dependencies(schema, t) && ChainFrom(schema, d, k)
  {
    var g := DependencyGraph(schema);
    var p :| Walk(g, p) && p[0] == t && |p| == k + 2;
    d := p[1];
    assert (p[0], p[0 + 1]) in g;
    WalkSlice(g, p, 1, k + 1);
    assert |p[1..k + 2]| == k + 1;
  }

  lemma ChainZero(schema: Schema, t: Node)
    ensures ChainFrom(schema, t, 0)
  {
    assert Walk(DependencyGraph(schema), [t]);
  }

  lemma DepthUnique(schema: Schema, t: Node, k: nat, m: nat)
    requires Depth(schema, t, k) && Depth(schema, t, m)
    ensures k == m
  {
  }

  // ----- The loop invariant -----

  ghost function Ready(schema: Schema, remaining: set<Node>): set<Node>
    requires remaining <= schema.Keys
  {
    set t | t in remaining && Dependencies(schema, t) !! remaining
  }

  /** After `r` rounds, what is left is exactly what has a chain of `r` dependencies. */
  ghost predicate RoundsDone(schema: Schema, remaining: set<Node>, r: nat) {
    && remaining <= schema.Keys
    && forall t :: t in schema ==> (t in remaining <==> ChainFrom(schema, t, r))
  }

  /** A chain of `r` dependencies contains one of every smaller length. */
  lemma ChainPrefix(schema: Schema, t: Node, k: nat, r: nat)
    requires ChainFrom(schema, t, r) && k <= r
    ensures ChainFrom(schema, t, k)
  {
    var g := DependencyGraph(schema);
    var p :| Walk(g, p) && p[0] == t && |p| == r + 1;
    WalkSlice(g, p, 0, k);
    assert |p[0..k + 1]| == k + 1;
  }

  /** The tables ready in round `r` are those of depth `r`. */
  lemma ReadyIsLayer(schema: Schema, remaining: set<Node>, r: nat)
    requires RoundsDone(schema, remaining, r)
    ensures Ready(schema, remaining) == Layer(schema, r)
    ensures RoundsDone(schema, remaining - Ready(schema, remaining), r + 1)
  {
    forall t | t in schema
      ensures t in remaining - Ready(schema, remaining) <==> ChainFrom(schema, t, r + 1)
    {
      if ChainFrom(schema, t, r + 1) {
        ChainPrefix(schema, t, r, r + 1);
        var d := ShortenChain(schema, t, r);
        assert d in Dependencies(schema, t) && d in remaining;
      } else if t in remaining && t !in Ready(schema, remaining) {
        var d :| d in Dependencies(schema, t) && d in remaining;
        ExtendChain(schema, t, d, r);
        assert false;
      }
    }
    forall t ensures t in Ready(schema, remaining) <==> t in schema && Depth(schema, t, r) {
      if t in Ready(schema, remaining) {
        forall m: nat | ChainFrom(schema, t, m) ensures m <= r {
          if m > r {
            ChainPrefix(schema, t, r + 1, m);
          }
        }
      }
    }
  }

  // ----- A stuck round means a cycle -----

  /** In a set where every table has a dependency inside the set, chains grow without end. */
  lemma {:induction false} StuckWalk(schema: Schema, stuck: set<Node>, t: Node, k: nat) returns (p: seq<Node>)
    requires stuck <= schema.Keys && t in stuck && Ready(schema, stuck) == {}
    ensures Walk(DependencyGraph(schema), p) && p[0] == t && |p| == k + 1
    ensures forall i :: 0 <= i < |p| ==> p[i] in stuck
    decreases k
  {
    if k == 0 {
      p := [t];
    } else {
      assert t !in Ready(schema, stuck);
      var d :| d in Dependencies(schema, t) && d in stuck;
      var q := StuckWalk(schema, stuck, d, k - 1);
      p := [t] + q;
      forall i | 0 <= i < |p| - 1 ensures (p[i], p[i + 1]) in DependencyGraph(schema) {
        if i > 0 {
          assert (q[i - 1], q[i - 1 + 1]) in DependencyGraph(schema);
        }
      }
    }
  }

  /** Pigeonhole: more positions than values force a repetition. */
  lemma {:induction false} Repetition(p: seq<Node>, s: set<Node>) returns (i: nat, j: nat)
    requires |p| > |s| && forall k :: 0 <= k < |p| ==> p[k] in s
    ensures i < j < |p| && p[i] == p[j]
  {
    var x := p[0];
    if k :| 0 < k < |p| && p[k] == x {
      i, j := 0, k;
    } else {
      i, j := Repetition(p[1..], s - {x});
      i, j := i + 1, j + 1;
    }
  }

  lemma StuckLeadsToCycle(schema: Schema, stuck: set<Node>, t: Node)
    requires stuck <= schema.Keys && t in stuck && Ready(schema, stuck) == {}
    ensures LeadsToCycle(schema, t)
  {
    var g := DependencyGraph(schema);
    var p := StuckWalk(schema, stuck, t, |stuck|);
    var i, j := Repetition(p, stuck);
    WalkSlice(g, p, 0, i);
    WalkSlice(g, p, i, j);
    assert Cycle(g, p[i..j + 1]);
  }

  // ----- A cycle keeps its tables from ever becoming ready -----

  lemma CycleStep(g: Graph, c: seq<Node>, i: nat) returns (j: nat)
    requires Cycle(g, c) && i < |c|
    ensures j < |c| && (c[i], c[j]) in g
  {
    if i < |c| - 1 {
      j := i + 1;
      assert (c[i], c[i + 1]) in g;
    } else {
      j := 1;
      assert (c[0], c[0 + 1]) in g;
    }
  }

  lemma {:induction false} CycleChain(schema: Schema, c: seq<Node>, i: nat, k: nat)
    requires Cycle(DependencyGraph(schema), c) && i < |c|
    ensures ChainFrom(schema, c[i], k)
    decreases k
  {
    if k == 0 {
      ChainZero(schema, c[i]);
    } else {
      var j := CycleStep(DependencyGraph(schema), c, i);
      CycleChain(schema, c, j, k - 1);
      ExtendChain(schema, c[i], c[j], k - 1);
    }
  }

  /** Chains of every length start at a table that leads to a cycle. */
  lemma LeadsToCycleChain(schema: Schema, t: Node, k: nat)
    requires LeadsToCycle(schema, t)
    ensures ChainFrom(schema, t, k)
  {
    var g := DependencyGraph(schema);
    var p, c :| Cycle(g, c) && WalkBetween(g, p, t, c[0]);
    CycleChain(schema, c, 0, k);
    var q :| Walk(g, q) && q[0] == c[0] && |q| == k + 1;
    JoinWalks(g, p, q, t, c[0], q[k]);
    ChainPrefix(schema, t, k, |p| + k - 1);
  }

  /** A cyclic dependency graph has a table that leads to a cycle, and conversely. */
  lemma CyclicIffLeads(schema: Schema)
    ensures Acyclic(DependencyGraph(schema)) <==> forall t :: t in schema ==> !LeadsToCycle(schema, t)
  {
    var g := DependencyGraph(schema);
    if !Acyclic(g) {
      var c :| Cycle(g, c);
      assert (c[0], c[0 + 1]) in g;
      assert WalkBetween(g, [c[0]], c[0], c[0]);
      assert LeadsToCycle(schema, c[0]);
    }
  }

  // ----- The order -----

  lemma {:induction false} FlattenMembers(rounds: seq<seq<Node>>, x: Node)
    ensures x in Flatten(rounds) <==> exists k :: 0 <= k < |rounds| && x in rounds[k]
  {
    if rounds != [] {
      var n := |rounds| - 1;
      FlattenMembers(rounds[..n], x);
      assert forall k :: 0 <= k < n ==> rounds[..n][k] == rounds[k];
      if x in rounds[n] {
      } else if exists k :: 0 <= k < |rounds| && x in rounds[k] {
        var k :| 0 <= k < |rounds| && x in rounds[k];
        assert x in rounds[..n][k];
      }
    }
  }

  /** On success every included table is listed once, after everything it depends on. */
  ghost predicate Topological(schema: Schema, order: seq<Node>) {
    && Distinct(order)
    && (forall t :: t in order <==> t in schema)
    && (forall i :: 0 <= i < |order| ==> AfterDependencies(schema, order, i))
  }

  ghost predicate AfterDependencies(schema: Schema, order: seq<Node>, i: nat)
    requires i < |order|
  {
    order[i] in schema ==>
      forall d :: d in schema[order[i]] && d in schema && d != order[i] ==> d in order[..i]
  }

  lemma {:induction false} FlattenTopological(schema: Schema, rounds: seq<seq<Node>>, n: nat)
    requires n <= |rounds| && Layered(schema, rounds)
    ensures Distinct(Flatten(rounds[..n]))
    ensures forall i :: 0 <= i < |Flatten(rounds[..n])| ==> AfterDependencies(schema, Flatten(rounds[..n]), i)
  {
    if n > 0 {
      var front, last := Flatten(rounds[..n - 1]), rounds[n - 1];
      assert rounds[..n][..n - 1] == rounds[..n - 1];
      var o := Flatten(rounds[..n]);
      assert o == front + last;
      FlattenTopological(schema, rounds, n - 1);
      forall x | x in front ensures x !in last {
        LayersDisjoint(schema, rounds, n - 1, x);
      }
      DistinctConcat(front, last);
      forall i | 0 <= i < |o| ensures AfterDependencies(schema, o, i) {
        if i < |front| {
          assert AfterDependencies(schema, front, i);
          assert o[..i] == front[..i];
        } else {
          assert o[i] in last && o[i] in Layer(schema, n - 1);
          forall d | d in Dependencies(schema, o[i]) ensures d in front {
            DependencyEarlier(schema, rounds, n - 1, o[i], d);
          }
          assert o[..i] == front + last[..i - |front|];
        }
      }
    }
  }

  lemma LayersDisjoint(schema: Schema, rounds: seq<seq<Node>>, n: nat, x: Node)
    requires n < |rounds| && Layered(schema, rounds) && x in Flatten(rounds[..n])
    ensures x !in rounds[n]
  {
    FlattenMembers(rounds[..n], x);
    var k :| 0 <= k < n && x in rounds[..n][k];
    assert x in rounds[k] && x in Layer(schema, k);
    if x in rounds[n] {
      assert x in Layer(schema, n);
      DepthUnique(schema, x, k, n);
    }
  }

  lemma DistinctConcat(a: seq<Node>, b: seq<Node>)
    requires Distinct(a) && Distinct(b) && forall x :: x in a ==> x !in b
    ensures Distinct(a + b)
  {
    forall i, j | 0 <= i < j < |a + b| ensures (a + b)[i] != (a + b)[j] {
      if i < |a| <= j {
        assert a[i] in a && b[j - |a|] in b;
      }
    }
  }

  lemma DependencyEarlier(schema: Schema, rounds: seq<seq<Node>>, r: nat, t: Node, d: Node)
    requires Layered(schema, rounds) && r < |rounds|
    requires t in schema && Depth(schema, t, r) && d in Dependencies(schema, t)
    ensures d in Flatten(rounds[..r])
  {
    var k :| 0 <= k < |rounds| && d in rounds[k];
    assert d in Layer(schema, k);
    ExtendChain(schema, t, d, k);
    assert rounds[..r][k] == rounds[k];
    FlattenMembers(rounds[..r], d);
  }

  /** The rounds, and so the order, are a function of the schema. */
  lemma LayersUnique(schema: Schema, a: seq<seq<Node>>, b: seq<seq<Node>>)
    requires Layered(schema, a) && Layered(schema, b)
    ensures a == b
  {
    LayersNoLonger(schema, a, b);
    LayersNoLonger(schema, b, a);
    forall k | 0 <= k < |a| ensures a[k] == b[k] {
      SortedListUnique(a[k], b[k], Layer(schema, k));
    }
  }

  /** Every depth that occurs has its round. */
  lemma DepthListed(schema: Schema, rounds: seq<seq<Node>>, t: Node, r: nat)
    requires Layered(schema, rounds) && t in Layer(schema, r)
    ensures r < |rounds|
  {
    var k :| 0 <= k < |rounds| && t in rounds[k];
    assert t in Layer(schema, k);
    DepthUnique(schema, t, k, r);
  }

  lemma LayersNoLonger(schema: Schema, a: seq<seq<Node>>, b: seq<seq<Node>>)
    requires Layered(schema, a) && Layered(schema, b)
    ensures |a| <= |b|
  {
    if a != [] {
      var r := |a| - 1;
      var x := a[r][0];
      assert x in a[r];
      DepthListed(schema, b, x, r);
    }
  }

  /** What the loop has built after some rounds. */
  ghost predicate Building(schema: Schema, remaining: set<Node>, rounds: seq<seq<Node>>) {
    && RoundsDone(schema, remaining, |rounds|)
    && (forall k :: 0 <= k < |rounds| ==> rounds[k] != [] && IsSortedList(rounds[k], Layer(schema, k)))
    && (forall t :: t in schema && t !in remaining ==> exists k :: 0 <= k < |rounds| && t in rounds[k])
  }

  lemma BuildRound(schema: Schema, remaining: set<Node>, rounds: seq<seq<Node>>, ready: seq<Node>)
    requires Building(schema, remaining, rounds) && ready != []
    requires IsSortedList(ready, Ready(schema, remaining))
    ensures Building(schema, remaining - Ready(schema, remaining), rounds + [ready])
  {
    ReadyIsLayer(schema, remaining, |rounds|);
    var free := Ready(schema, remaining);
    var after := rounds + [ready];
    forall t | t in schema && t !in remaining - free ensures exists k :: 0 <= k < |after| && t in after[k] {
      if t in remaining {
        assert t in after[|rounds|];
      } else {
        var k :| 0 <= k < |rounds| && t in rounds[k];
        assert t in after[k];
      }
    }
  }

  lemma FlattenAppend(rounds: seq<seq<Node>>, ready: seq<Node>)
    ensures Flatten(rounds + [ready]) == Flatten(rounds) + ready
  {
    assert (rounds + [ready])[..|rounds|] == rounds;
  }

  lemma RoundShrinks(remaining: set<Node>, free: set<Node>, ready: seq<Node>)
    requires free <= remaining && ready != [] && IsSortedList(ready, free)
    ensures |remaining - free| < |remaining|
  {
    assert ready[0] in free;
    assert remaining == (remaining - free) + free;
  }

  lemma BuildStuck(schema: Schema, remaining: set<Node>, rounds: seq<seq<Node>>)
    requires Building(schema, remaining, rounds) && remaining != {} && Ready(schema, remaining) == {}
    ensures !NoLoop(schema)
    ensures remaining == set t | t in schema && LeadsToCycle(schema, t)
  {
    forall t | t in remaining ensures LeadsToCycle(schema, t) { StuckLeadsToCycle(schema, remaining, t); }
    forall t | t in schema && LeadsToCycle(schema, t) ensures t in remaining {
      LeadsToCycleChain(schema, t, |rounds|);
    }
    CyclicIffLeads(schema);
    AcyclicIffNoLoop(schema);
    var t :| t in remaining;
    assert t in schema && LeadsToCycle(schema, t);
  }

  lemma BuildFinished(schema: Schema, rounds: seq<seq<Node>>)
    requires Building(schema, {}, rounds)
    ensures NoLoop(schema)
    ensures Layered(schema, rounds) && Topological(schema, Flatten(rounds))
  {
    forall t | t in schema ensures !LeadsToCycle(schema, t) {
      if LeadsToCycle(schema, t) {
        LeadsToCycleChain(schema, t, |rounds|);
      }
    }
    CyclicIffLeads(schema);
    AcyclicIffNoLoop(schema);
    FlattenTopological(schema, rounds, |rounds|);
    assert rounds[..|rounds|] == rounds;
    forall t ensures t in Flatten(rounds) <==> t in schema {
      FlattenMembers(rounds, t);
      if t in Flatten(rounds) {
        var k :| 0 <= k < |rounds| && t in rounds[k];
        assert t in Layer(schema, k);
      }
    }
  }

  /** The whole loop: it succeeds exactly without a loop of references and then lists every table
      after those it references, layer by layer; otherwise it reports exactly the tables from which
      a cycle can be reached. */
  method OrderTables(schema: Schema) returns (r: Result<seq<Node>>)
    ensures r.Ordered? <==> NoLoop(schema)
    ensures r.Ordered? ==> Topological(schema, r.order)
    ensures r.Ordered? ==> exists rounds :: Layered(schema, rounds) && r.order == Flatten(rounds)
    ensures r.CycleError? ==> IsSortedList(r.remaining, set t | t in schema && LeadsToCycle(schema, t))
  {
    var ordered: seq<Node> := [];
    var remaining := schema.Keys;
    ghost var rounds: seq<seq<Node>> := [];
    forall t | t in schema ensures ChainFrom(schema, t, 0) { ChainZero(schema, t); }
    while remaining != {}
      invariant Building(schema, remaining, rounds)
      invariant ordered == Flatten(rounds)
      decreases |remaining|
    {
      var free := set t | t in remaining && Dependencies(schema, t) !! remaining;
      assert free == Ready(schema, remaining);
      var ready := SortedListOf(free);
      if ready == [] {
        BuildStuck(schema, remaining, rounds);
        var names := SortedListOf(remaining);
        return CycleError(names);
      }
      BuildRound(schema, remaining, rounds, ready);
      RoundShrinks(remaining, free, ready);
      FlattenAppend(rounds, ready);
      rounds := rounds + [ready];
      ordered := ordered + ready;
      assert free == set t | t in ready;
      remaining := remaining - (set t | t in ready);
    }
    BuildFinished(schema, rounds);
    return Ordered(ordered);
  }
}

/** The recursive search itself, scripts/architecture_baseline.py:135-177, and what the import
    report says about cycles. */
module ImportCycles {
  import opened Sorting
  import opened Graphs
  import opened StrongComponents

  /** `b` extends `a`: nothing recorded is rewritten and the stack only grew upwards. */
  ghost predicate Extends(a: State, b: State) {
    && a.stack <= b.stack
    && a.index <= b.index
    && a.indices.Keys <= b.indices.Keys
    && (forall x :: x in a.indices ==> b.indices[x] == a.indices[x])
    && (forall x :: x in b.indices && x !in a.indices ==> a.index <= b.indices[x])
    && a.lowlinks.Keys <= b.lowlinks.Keys
    && (forall x :: x in a.lowlinks ==> b.lowlinks[x] == a.lowlinks[x])
  }

  /** `y` lies on the stack `s`, is reachable from `v` and has index `low`. */
  ghost predicate LowWitness(g: Graph, indices: map<Node, nat>, s: seq<Node>, v: Node, low: nat, y: Node) {
    y in s && y in indices && indices[y] == low && Reach(g, v, y)
  }

  ghost predicate LowFound(g: Graph, indices: map<Node, nat>, s: seq<Node>, v: Node, low: nat) {
    exists y :: LowWitness(g, indices, s, v, low, y)
  }

  /** Everything first seen between `a` and `b` is reachable from `v`. */
  ghost predicate NewReachable(g: Graph, a: State, b: State, v: Node) {
    forall x :: x in b.indices && x !in a.indices ==> Reach(g, v, x)
  }

  /** What one call of `visit(v)` started in `a` leaves behind in `b`. */
  ghost predicate Visited(g: Graph, a: State, b: State, v: Node) {
    && Shape(b)
    && Extends(a, b)
    && v in b.indices && b.indices[v] == a.index
    && v in b.lowlinks
    && (if b.stack == a.stack
        then b.lowlinks[v] == a.index
        else b.lowlinks[v] < a.index && LowFound(g, b.indices, a.stack, v, b.lowlinks[v]))
    && Crossing(g, b, |a.stack|, b.lowlinks[v])
    && NewReachable(g, a, b, v)
  }

  /** The loop over the successors of `v` has not disturbed what `a` recorded. */
  ghost predicate Scanned(g: Graph, a: State, c: State, v: Node) {
    && Shape(c)
    && v !in a.indices
    && a.stack + [v] <= c.stack
    && Extends(a, c)
    && v in c.indices && c.indices[v] == a.index && a.index < c.index
    && NewReachable(g, a, c, v)
  }

  /** `low` is a correct lowlink for `v` after `i` of its successors. */
  ghost predicate LowSoFar(g: Graph, a: State, c: State, v: Node, targets: seq<Node>, i: nat, low: nat) {
    && i <= |targets|
    && low <= a.index
    && LowFound(g, c.indices, a.stack + [v], v, low)
    && (forall k :: 0 <= k < i ==> targets[k] in c.indices)
    && (forall k :: 0 <= k < i && targets[k] in a.stack ==> low <= c.indices[targets[k]])
    && |a.stack| < |c.stack|
    && (forall e :: e in g && e.0 in c.stack[|a.stack| + 1..] && e.1 in a.stack ==>
          e.1 in c.indices && low <= c.indices[e.1])
  }

  /** The loop over the successors of `v`, `i` of them done: `a` before the call, `c` now. */
  ghost predicate Scanning(g: Graph, a: State, c: State, v: Node, targets: seq<Node>, i: nat) {
    Scanned(g, a, c, v) && LowSoFar(g, a, c, v, targets, i, c.lowlinks[v])
  }

  lemma ScanStart(g: Graph, a: State, v: Node, targets: seq<Node>)
    requires Shape(a) && v !in a.indices
    ensures Scanning(g, a, Push(a, v), v, targets, 0)
  {
    PushShape(a, v);
    ReachSelf(g, v);
    assert LowWitness(g, Push(a, v).indices, a.stack + [v], v, a.index, v);
    assert Push(a, v).stack[|a.stack| + 1..] == [];
  }

  /** The stack below `v` is what it was before the call. */
  lemma BelowV(g: Graph, a: State, c: State, v: Node)
    requires Shape(a) && Scanned(g, a, c, v)
    ensures |a.stack| < |c.stack| && c.stack[|a.stack|] == v && c.stack[..|a.stack|] == a.stack
    ensures v in c.onStack
    ensures forall y :: y in a.stack ==> y in c.onStack && y in a.indices && c.indices[y] == a.indices[y] < a.index
  {
    assert c.stack[|a.stack|] == (a.stack + [v])[|a.stack|];
    assert c.stack[..|a.stack|] == (a.stack + [v])[..|a.stack|];
    forall y | y in a.stack ensures y in c.stack {
      assert y in c.stack[..|a.stack|];
    }
  }

  /** A stack entry at most as old as `v` is `v` or lies below it. */
  lemma AtOrBelowV(g: Graph, a: State, c: State, v: Node, y: Node)
    requires Shape(a) && Scanned(g, a, c, v) && y in c.onStack && c.indices[y] < a.index
    ensures y in a.stack + [v]
  {
    BelowV(g, a, c, v);
    StackPart(c, |a.stack|, y);
  }

  lemma ScanSetLow(g: Graph, a: State, c: State, v: Node, targets: seq<Node>, i: nat, low: nat)
    requires Shape(a) && Scanned(g, a, c, v) && LowSoFar(g, a, c, v, targets, i, low)
    ensures Scanning(g, a, SetLow(c, v, low), v, targets, i)
  {
  }

  lemma ScanSkip(g: Graph, a: State, c: State, v: Node, targets: seq<Node>, i: nat)
    requires Shape(a) && Scanning(g, a, c, v, targets, i) && i < |targets|
    requires targets[i] in c.indices && targets[i] !in c.onStack
    ensures Scanning(g, a, c, v, targets, i + 1)
  {
    BelowV(g, a, c, v);
  }

  /** `elif target in on_stack`. */
  lemma ScanBackEdge(g: Graph, a: State, c: State, v: Node, targets: seq<Node>, i: nat)
    requires Shape(a) && Scanning(g, a, c, v, targets, i) && i < |targets|
    requires targets[i] in c.onStack && (v, targets[i]) in g
    ensures Scanning(g, a, SetLow(c, v, Min(c.lowlinks[v], c.indices[targets[i]])), v, targets, i + 1)
  {
    BackLow(g, a, c, v, targets, i);
    ScanSetLow(g, a, c, v, targets, i + 1, Min(c.lowlinks[v], c.indices[targets[i]]));
  }

  lemma BackLow(g: Graph, a: State, c: State, v: Node, targets: seq<Node>, i: nat)
    requires Shape(a) && Scanning(g, a, c, v, targets, i) && i < |targets|
    requires targets[i] in c.onStack && (v, targets[i]) in g
    ensures LowSoFar(g, a, c, v, targets, i + 1, Min(c.lowlinks[v], c.indices[targets[i]]))
  {
    var t := targets[i];
    if c.indices[t] < c.lowlinks[v] {
      ReachEdge(g, v, t);
      AtOrBelowV(g, a, c, v, t);
      assert LowWitness(g, c.indices, a.stack + [v], v, c.indices[t], t);
    }
  }

  /** `if target not in indices`: after the recursive call returned in `d`. */
  lemma ScanChild(g: Graph, a: State, c: State, d: State, v: Node, targets: seq<Node>, i: nat)
    requires Shape(a) && Scanning(g, a, c, v, targets, i) && i < |targets|
    requires targets[i] !in c.indices && (v, targets[i]) in g && Visited(g, c, d, targets[i])
    ensures Scanning(g, a, SetLow(d, v, Min(d.lowlinks[v], d.lowlinks[targets[i]])), v, targets, i + 1)
  {
    ChildScanned(g, a, c, d, v, targets[i]);
    ChildLow(g, a, c, d, v, targets, i);
    ScanSetLow(g, a, d, v, targets, i + 1, Min(d.lowlinks[v], d.lowlinks[targets[i]]));
  }

  lemma ChildScanned(g: Graph, a: State, c: State, d: State, v: Node, t: Node)
    requires Scanned(g, a, c, v) && (v, t) in g && Visited(g, c, d, t)
    ensures Scanned(g, a, d, v)
  {
    ReachEdge(g, v, t);
    forall x | x in d.indices && x !in a.indices ensures Reach(g, v, x) {
      if x !in c.indices {
        ReachTransitive(g, v, t, x);
      }
    }
  }

  lemma ChildLow(g: Graph, a: State, c: State, d: State, v: Node, targets: seq<Node>, i: nat)
    requires Shape(a) && Scanning(g, a, c, v, targets, i) && i < |targets|
    requires targets[i] !in c.indices && (v, targets[i]) in g && Visited(g, c, d, targets[i])
    ensures v in d.lowlinks
    ensures LowSoFar(g, a, d, v, targets, i + 1, Min(d.lowlinks[v], d.lowlinks[targets[i]]))
  {
    var low := Min(d.lowlinks[v], d.lowlinks[targets[i]]);
    ChildWitness(g, a, c, d, v, targets, i);
    ChildCrossing(g, a, c, d, v, targets, i);
    BelowV(g, a, c, v);
    forall k | 0 <= k < i + 1 && targets[k] in a.stack ensures low <= d.indices[targets[k]] {
      assert targets[k] in a.indices;
      assert k != i;
    }
  }

  lemma ChildWitness(g: Graph, a: State, c: State, d: State, v: Node, targets: seq<Node>, i: nat)
    requires Shape(a) && Scanning(g, a, c, v, targets, i) && i < |targets|
    requires targets[i] !in c.indices && (v, targets[i]) in g && Visited(g, c, d, targets[i])
    ensures v in d.lowlinks
    ensures LowFound(g, d.indices, a.stack + [v], v, Min(d.lowlinks[v], d.lowlinks[targets[i]]))
  {
    var t := targets[i];
    var y :| LowWitness(g, c.indices, a.stack + [v], v, c.lowlinks[v], y);
    assert LowWitness(g, d.indices, a.stack + [v], v, d.lowlinks[v], y);
    if d.lowlinks[t] < d.lowlinks[v] {
      var z :| LowWitness(g, d.indices, c.stack, t, d.lowlinks[t], z);
      ReachEdge(g, v, t);
      ReachTransitive(g, v, t, z);
      AtOrBelowV(g, a, c, v, z);
      assert LowWitness(g, d.indices, a.stack + [v], v, d.lowlinks[t], z);
    }
  }

  lemma ChildCrossing(g: Graph, a: State, c: State, d: State, v: Node, targets: seq<Node>, i: nat)
    requires Shape(a) && Scanning(g, a, c, v, targets, i) && i < |targets|
    requires targets[i] !in c.indices && (v, targets[i]) in g && Visited(g, c, d, targets[i])
    ensures v in d.lowlinks
    ensures forall e :: e in g && e.0 in d.stack[|a.stack| + 1..] && e.1 in a.stack ==>
              e.1 in d.indices && Min(d.lowlinks[v], d.lowlinks[targets[i]]) <= d.indices[e.1]
  {
    var n, m := |a.stack|, |c.stack|;
    BelowV(g, a, c, v);
    SplitAbove(c.stack, d.stack, n + 1);
    forall e | e in g && e.0 in d.stack[n + 1..] && e.1 in a.stack
      ensures e.1 in d.indices && Min(d.lowlinks[v], d.lowlinks[targets[i]]) <= d.indices[e.1]
    {
      assert e.1 in a.indices && d.indices[e.1] == c.indices[e.1];
      if e.0 in d.stack[m..] {
        assert e.1 in d.stack[..m];
      }
    }
  }

  lemma SplitAbove(c: seq<Node>, d: seq<Node>, n: nat)
    requires n <= |c| && c <= d
    ensures d[..|c|] == c
    ensures forall x :: x in d[n..] ==> x in c[n..] || x in d[|c|..]
  {
    assert d[n..] == c[n..] + d[|c|..];
  }

  /** The whole state after a turn that recursed. */
  lemma ChildStep(g: Graph, a: State, c: State, d: State, v: Node, targets: seq<Node>, i: nat, active: set<Node>)
    requires Shape(a) && Scanning(g, a, c, v, targets, i) && i < |targets|
    requires targets[i] !in c.indices && (v, targets[i]) in g && Visited(g, c, d, targets[i])
    requires Inv(g, d, active)
    ensures v in d.lowlinks
    ensures var e := SetLow(d, v, Min(d.lowlinks[v], d.lowlinks[targets[i]]));
            Inv(g, e, active) && Scanning(g, a, e, v, targets, i + 1)
  {
    ScanChild(g, a, c, d, v, targets, i);
    SetLowInv(g, d, active, v, Min(d.lowlinks[v], d.lowlinks[targets[i]]));
  }

  /** The whole state after a turn that met a node on the stack. */
  lemma BackStep(g: Graph, a: State, c: State, v: Node, targets: seq<Node>, i: nat, active: set<Node>)
    requires Shape(a) && Scanning(g, a, c, v, targets, i) && i < |targets|
    requires targets[i] in c.onStack && (v, targets[i]) in g
    requires Inv(g, c, active)
    ensures var e := SetLow(c, v, Min(c.lowlinks[v], c.indices[targets[i]]));
            Inv(g, e, active) && Scanning(g, a, e, v, targets, i + 1)
  {
    ScanBackEdge(g, a, c, v, targets, i);
    SetLowInv(g, c, active, v, Min(c.lowlinks[v], c.indices[targets[i]]));
  }

  /** The scan is over and `v` reaches something lower: the call returns at line 163. */
  lemma ScanLeave(g: Graph, a: State, c: State, v: Node, targets: seq<Node>, active: set<Node>)
    requires Inv(g, a, active) && Scanning(g, a, c, v, targets, |targets|) && Inv(g, c, active + {v})
    requires forall e :: e in g && e.0 == v ==> e.1 in targets
    requires c.lowlinks[v] != c.indices[v]
    ensures Inv(g, c, active) && Visited(g, a, c, v)
  {
    var y :| LowWitness(g, c.indices, a.stack + [v], v, c.lowlinks[v], y);
    BelowV(g, a, c, v);
    LeaveInv(g, c, active, v, y);
    assert LowWitness(g, c.indices, a.stack, v, c.lowlinks[v], y);
    ScanCrossing(g, a, c, v, targets);
  }

  lemma ScanCrossing(g: Graph, a: State, c: State, v: Node, targets: seq<Node>)
    requires Shape(a) && Scanning(g, a, c, v, targets, |targets|)
    requires forall e :: e in g && e.0 == v ==> e.1 in targets
    ensures |a.stack| < |c.stack| && c.stack[|a.stack|] == v && c.stack[..|a.stack|] == a.stack
    ensures Crossing(g, c, |a.stack|, c.lowlinks[v])
  {
    var n := |a.stack|;
    BelowV(g, a, c, v);
    assert c.stack[n..] == [v] + c.stack[n + 1..];
    forall e | e in g && e.0 in c.stack[n..] && e.1 in c.stack[..n]
      ensures e.1 in c.indices && c.lowlinks[v] <= c.indices[e.1]
    {
      if e.0 == v {
        var k :| 0 <= k < |targets| && targets[k] == e.1;
        assert targets[k] in a.stack;
      }
    }
  }

  /** The scan is over and `v` is a root: lines 164-172 close its component. */
  lemma ScanClose(g: Graph, a: State, c: State, v: Node, targets: seq<Node>, active: set<Node>, component: seq<Node>)
    requires Inv(g, a, active) && Scanning(g, a, c, v, targets, |targets|) && Inv(g, c, active + {v})
    requires forall e :: e in g && e.0 == v ==> e.1 in targets
    requires c.lowlinks[v] == c.indices[v]
    requires Distinct(component) && Elements(component) == Elements(c.stack[|a.stack|..])
    ensures Inv(g, Pop(c, |a.stack|, component), active)
    ensures Visited(g, a, Pop(c, |a.stack|, component), v)
  {
    ScanCrossing(g, a, c, v, targets);
    assert RootFound(g, c, active, v, |a.stack|);
    PopInv(g, c, active, v, |a.stack|, component);
  }

  lemma VisitStart(g: Graph, a: State, v: Node, targets: seq<Node>, active: set<Node>)
    requires Inv(g, a, active) && v !in a.indices && forall x :: x in active ==> Reach(g, x, v)
    ensures Inv(g, Push(a, v), active + {v}) && Scanning(g, a, Push(a, v), v, targets, 0)
  {
    PushInv(g, a, active, v);
    ScanStart(g, a, v, targets);
  }

  lemma PopOne(s: seq<Node>, k: nat)
    requires Distinct(s) && k < |s|
    ensures s[k] !in s[k + 1..]
    ensures Elements(s[k..]) == Elements(s[k + 1..]) + {s[k]}
  {
    assert s[k..] == [s[k]] + s[k + 1..];
  }

  /** Calls in progress reach whatever the innermost of them turns to. */
  lemma ChainReaches(g: Graph, active: set<Node>, v: Node, t: Node)
    requires (v, t) in g && forall x :: x in active ==> Reach(g, x, v)
    ensures forall x :: x in active + {v} ==> Reach(g, x, t)
  {
    ReachEdge(g, v, t);
    forall x | x in active ensures Reach(g, x, t) {
      ReachTransitive(g, x, v, t);
    }
  }

  function Min(a: nat, b: nat): nat {
    if a <= b then a else b
  }

  ghost predicate AdjacencyOf(adjacency: map<Node, seq<Node>>, g: Graph) {
    forall x, y :: (x, y) in g <==> x in adjacency && y in adjacency[x]
  }

  class Search {
    const adjacency: map<Node, seq<Node>>
    ghost const g: Graph
    var index: nat
    var stack: seq<Node>
    var onStack: set<Node>
    var indices: map<Node, nat>
    var lowlinks: map<Node, nat>
    var components: seq<seq<Node>>

    ghost function View(): State
      reads this
    {
      State(index, stack, onStack, indices, lowlinks, components)
    }

    constructor (adjacency: map<Node, seq<Node>>, ghost g: Graph)
      ensures this.adjacency == adjacency && this.g == g && View() == Initial
    {
      this.adjacency := adjacency;
      this.g := g;
      index, stack, onStack, indices, lowlinks, components := 0, [], {}, map[], map[], [];
    }

    /** `visit`: `active` is the chain of calls in progress, `universe` bounds the recursion. */
    method Visit(node: Node, ghost active: set<Node>, ghost universe: set<Node>)
      requires AdjacencyOf(adjacency, g) && Closed(g, universe)
      requires Inv(g, View(), active) && node !in indices && node in universe
      requires forall x :: x in active ==> Reach(g, x, node)
      modifies this
      ensures Inv(g, View(), active) && Visited(g, old(View()), View(), node)
      decreases universe - indices.Keys, 0
    {
      ghost var a := View();
      var targets := if node in adjacency then adjacency[node] else [];
      VisitStart(g, a, node, targets, active);
      Enter(node);
      for i := 0 to |targets|
        invariant Inv(g, View(), active + {node})
        invariant Scanning(g, a, View(), node, targets, i)
      {
        Scan(node, targets, i, a, active, universe);
      }
      if lowlinks[node] != indices[node] {
        ScanLeave(g, a, View(), node, targets, active);
        return;
      }
      Close(node, targets, a, active);
    }

    /** `node` is a root: lines 164-172. */
    method Close(node: Node, ghost targets: seq<Node>, ghost a: State, ghost active: set<Node>)
      requires Inv(g, a, active) && Inv(g, View(), active + {node})
      requires Scanning(g, a, View(), node, targets, |targets|)
      requires forall e :: e in g && e.0 == node ==> e.1 in targets
      requires lowlinks[node] == indices[node]
      modifies this`stack, this`onStack, this`components
      ensures Inv(g, View(), active) && Visited(g, a, View(), node)
    {
      ghost var c := View();
      ScanCrossing(g, a, c, node, targets);
      var component := PopThrough(node, |a.stack|);
      ScanClose(g, a, c, node, targets, active, component);
      if |component| > 1 {
        components := components + [Sort(StringLeq, component)];
      }
      assert View() == Pop(c, |a.stack|, component);
    }

    /** Lines 175-176, for one module. */
    method VisitModule(order: seq<Node>, i: nat, ghost modules: set<Node>, ghost universe: set<Node>)
      requires AdjacencyOf(adjacency, g) && Closed(g, universe) && modules <= universe
      requires i < |order| && order[i] in modules && Covers(g, modules, View(), order, i)
      modifies this
      ensures Covers(g, modules, View(), order, i + 1)
    {
      if order[i] !in indices {
        ghost var a := View();
        Visit(order[i], {}, universe);
        CoversMore(g, modules, a, View(), order, i);
      }
    }

    /** Lines 151-155. */
    method Enter(node: Node)
      modifies this
      ensures View() == Push(old(View()), node)
    {
      indices := indices[node := index];
      lowlinks := lowlinks[node := index];
      index := index + 1;
      stack := stack + [node];
      onStack := onStack + {node};
    }

    /** One turn of the loop over the successors of `node`, lines 156-161. */
    method Scan(node: Node, targets: seq<Node>, i: nat,
                ghost a: State, ghost active: set<Node>, ghost universe: set<Node>)
      requires AdjacencyOf(adjacency, g) && Closed(g, universe) && node in universe
      requires Shape(a) && Inv(g, View(), active + {node})
      requires Scanning(g, a, View(), node, targets, i) && i < |targets| && (node, targets[i]) in g
      requires forall x :: x in active ==> Reach(g, x, node)
      modifies this
      ensures Inv(g, View(), active + {node}) && Scanning(g, a, View(), node, targets, i + 1)
      decreases universe - indices.Keys, 2
    {
      var target := targets[i];
      ghost var c := View();
      if target !in indices {
        Descend(node, targets, i, a, active, universe);
      } else if target in onStack {
        BackStep(g, a, c, node, targets, i, active + {node});
        lowlinks := lowlinks[node := Min(lowlinks[node], indices[target])];
        assert View() == SetLow(c, node, Min(c.lowlinks[node], c.indices[target]));
      } else {
        ScanSkip(g, a, c, node, targets, i);
      }
    }

    /** Lines 157-159: an unseen successor is visited and its lowlink taken over. */
    method Descend(node: Node, targets: seq<Node>, i: nat,
                   ghost a: State, ghost active: set<Node>, ghost universe: set<Node>)
      requires AdjacencyOf(adjacency, g) && Closed(g, universe) && node in universe
      requires Shape(a) && Inv(g, View(), active + {node})
      requires Scanning(g, a, View(), node, targets, i) && i < |targets| && (node, targets[i]) in g
      requires targets[i] !in indices && forall x :: x in active ==> Reach(g, x, node)
      modifies this
      ensures Inv(g, View(), active + {node}) && Scanning(g, a, View(), node, targets, i + 1)
      decreases universe - indices.Keys, 1
    {
      var target := targets[i];
      ghost var c := View();
      ChainReaches(g, active, node, target);
      Visit(target, active + {node}, universe);
      ghost var d := View();
      ChildStep(g, a, c, d, node, targets, i, active + {node});
      lowlinks := lowlinks[node := Min(lowlinks[node], lowlinks[target])];
      assert View() == SetLow(d, node, Min(d.lowlinks[node], d.lowlinks[target]));
    }

    /** `while stack: ... if item == node: break`. */
    method PopThrough(node: Node, ghost k: nat) returns (component: seq<Node>)
      requires Distinct(stack) && k < |stack| && stack[k] == node
      modifies this`stack, this`onStack
      ensures Distinct(component) && Elements(component) == Elements(old(stack)[k..])
      ensures stack == old(stack)[..k] && onStack == old(onStack) - (set x | x in component)
    {
      component := [];
      ghost var s := stack;
      while stack != []
        invariant k < |stack| && stack == s[..|stack|]
        invariant Distinct(component) && Elements(component) == Elements(s[|stack|..])
        invariant onStack == old(onStack) - (set x | x in component)
        decreases |stack|
      {
        var item := stack[|stack| - 1];
        PopOne(s, |stack| - 1);
        assert item !in component;
        ghost var popped := component;
        stack := stack[..|stack| - 1];
        onStack := onStack - {item};
        component := component + [item];
        assert Elements(component) == Elements(popped) + {item};
        if item == node {
          break;
        }
      }
    }
  }

  // ----- The whole search: lines 138-140 and 174-177 -----

  /** Python's comparison of lists of strings. */
  predicate ListLeq(a: seq<Node>, b: seq<Node>) {
    if a == [] then true
    else if b == [] then false
    else if a[0] == b[0] then ListLeq(a[1..], b[1..])
    else StringLeq(a[0], b[0])
  }

  /** The sort key `(len(item), item)`. */
  predicate ReportLeq(a: seq<Node>, b: seq<Node>) {
    |a| < |b| || (|a| == |b| && ListLeq(a, b))
  }

  lemma {:induction false} ListTotal(a: seq<Node>, b: seq<Node>)
    ensures ListLeq(a, b) || ListLeq(b, a)
  {
    if a != [] && b != [] {
      StringTotal(a[0], b[0]);
      ListTotal(a[1..], b[1..]);
    }
  }

  lemma {:induction false} ListTransitive(a: seq<Node>, b: seq<Node>, c: seq<Node>)
    requires ListLeq(a, b) && ListLeq(b, c)
    ensures ListLeq(a, c)
  {
    if a != [] {
      StringOrder();
      if a[0] == b[0] == c[0] {
        ListTransitive(a[1..], b[1..], c[1..]);
      }
    }
  }

  lemma {:induction false} ListAntisymmetric(a: seq<Node>, b: seq<Node>)
    requires ListLeq(a, b) && ListLeq(b, a)
    ensures a == b
  {
    if a != [] && b != [] {
      StringOrder();
      ListAntisymmetric(a[1..], b[1..]);
      assert a == [a[0]] + a[1..] && b == [b[0]] + b[1..];
    }
  }

  lemma ReportOrder()
    ensures Preorder(ReportLeq) && Antisymmetric(ReportLeq)
  {
    forall a, b ensures ReportLeq(a, b) || ReportLeq(b, a) { ListTotal(a, b); }
    forall a, b, c | ReportLeq(a, b) && ReportLeq(b, c) ensures ReportLeq(a, c) {
      if |a| == |b| == |c| {
        ListTransitive(a, b, c);
      }
    }
    forall a, b | ReportLeq(a, b) && ReportLeq(b, a) ensures a == b { ListAntisymmetric(a, b); }
  }

  ghost predicate ReachableFrom(g: Graph, roots: set<Node>, x: Node) {
    exists m :: m in roots && Reach(g, m, x)
  }

  /** `r` lists exactly the components with several nodes that the modules reach. */
  ghost predicate ListsComponents(g: Graph, modules: set<Node>, r: seq<seq<Node>>) {
    && (forall c :: c in r ==> |c| > 1 && IsSortedList(c, Elements(c)) && IsComponent(g, Elements(c)))
    && (forall c, x :: c in r && x in c ==> ReachableFrom(g, modules, x))
    && (forall x, y :: ReachableFrom(g, modules, x) && x != y && Mutual(g, x, y) ==> exists c :: c in r && x in c)
  }

  /** The intended result: the components with several nodes that the modules reach, each once,
      each sorted, smaller and alphabetically earlier ones first. */
  ghost predicate IsReport(g: Graph, modules: set<Node>, r: seq<seq<Node>>) {
    && ListsComponents(g, modules, r)
    && (forall i, j :: 0 <= i < j < |r| ==> Elements(r[i]) !! Elements(r[j]))
    && (forall i, j :: 0 <= i < j < |r| ==> ListedBefore(r[i], r[j]))
  }

  /** The lists first differ at `k`, and `a` has the name that comes first in ascending order. */
  ghost predicate EarlierAt(a: seq<Node>, b: seq<Node>, k: nat) {
    k < |a| && k < |b| && a[..k] == b[..k] && a[k] != b[k] && Ascending(a[k], b[k])
  }

  /** Shorter, or equally long and earlier at the first difference. */
  ghost predicate ListedBefore(a: seq<Node>, b: seq<Node>) {
    |a| < |b| || (|a| == |b| && exists k: nat :: EarlierAt(a, b, k))
  }

  lemma {:induction false} ListLeqMeaning(a: seq<Node>, b: seq<Node>)
    requires |a| == |b| && a != b
    ensures ListLeq(a, b) <==> exists k: nat :: EarlierAt(a, b, k)
  {
    if a[0] == b[0] {
      var x, y := a[1..], b[1..];
      assert a == [a[0]] + x && b == [b[0]] + y;
      ListLeqMeaning(x, y);
      if k: nat :| EarlierAt(x, y, k) {
        assert a[..k + 1] == [a[0]] + x[..k] && b[..k + 1] == [b[0]] + y[..k];
        assert EarlierAt(a, b, k + 1);
      }
      if k: nat :| EarlierAt(a, b, k) {
        assert x[..k - 1] == a[..k][1..] && y[..k - 1] == b[..k][1..];
        assert EarlierAt(x, y, k - 1);
      }
    } else {
      StringLeqMeaning(a[0], b[0]);
      if StringLeq(a[0], b[0]) {
        assert EarlierAt(a, b, 0);
      } else if k: nat :| EarlierAt(a, b, k) {
        SameStart(a, b, k);
      }
    }
  }

  /** The comparison that the report is sorted by. */
  lemma ReportLeqMeaning(a: seq<Node>, b: seq<Node>)
    requires a != b
    ensures ReportLeq(a, b) <==> ListedBefore(a, b)
  {
    if |a| == |b| {
      ListLeqMeaning(a, b);
    }
  }

  /** A sorted report of different lists is in that order, and conversely. */
  lemma SortedMeaning(r: seq<seq<Node>>)
    requires Distinct(r)
    ensures Sorted(ReportLeq, r) <==> forall i, j :: 0 <= i < j < |r| ==> ListedBefore(r[i], r[j])
  {
    forall i, j | 0 <= i < j < |r| ensures ReportLeq(r[i], r[j]) <==> ListedBefore(r[i], r[j]) {
      ReportLeqMeaning(r[i], r[j]);
    }
  }

  lemma NoElements(s: seq<Node>)
    ensures Elements(s) == {} ==> s == []
  {
    if s != [] {
      assert s[0] in Elements(s);
    }
  }

  /** Only the root call is left when no call is active, so the stack is empty. */
  lemma IdleStackEmpty(g: Graph, st: State)
    requires Inv(g, st, {})
    ensures st.stack == [] && st.onStack == {} && Done(st) == st.indices.Keys
  {
    assert forall y :: y in st.onStack ==> !HasRoot(g, st, {}, y);
    assert st.onStack == {};
    NoElements(st.stack);
  }

  lemma DisjointPermutation(a: seq<seq<Node>>, b: seq<seq<Node>>)
    requires multiset(a) == multiset(b)
    requires forall i :: 0 <= i < |a| ==> a[i] != []
    requires forall i, j :: 0 <= i < j < |a| ==> Elements(a[i]) !! Elements(a[j])
    ensures forall i, j :: 0 <= i < j < |b| ==> Elements(b[i]) !! Elements(b[j])
  {
    assert forall i :: 0 <= i < |a| ==> a[i][0] in Elements(a[i]);
    assert Distinct(a);
    DistinctCounts(a);
    CountsDistinct(b);
    forall i, j | 0 <= i < j < |b| ensures Elements(b[i]) !! Elements(b[j]) {
      SameMembers(a, b, b[i]);
      SameMembers(a, b, b[j]);
      var k :| 0 <= k < |a| && a[k] == b[i];
      var l :| 0 <= l < |a| && a[l] == b[j];
      assert k != l;
    }
  }

  /** A closed component of several nodes, all of them reached from the modules. */
  lemma ListedReachable(g: Graph, modules: set<Node>, st: State, c: seq<Node>)
    requires Listed(g, st, c) && forall x :: x in st.indices ==> ReachableFrom(g, modules, x)
    ensures forall x :: x in c ==> ReachableFrom(g, modules, x)
  {
    assert forall x :: x in c ==> x in Elements(c);
  }

  /** What the modules reach and what has company is reported. */
  lemma ReachedListed(g: Graph, modules: set<Node>, st: State, x: Node, y: Node)
    requires Inv(g, st, {}) && modules <= st.indices.Keys
    requires ReachableFrom(g, modules, x) && x != y && Mutual(g, x, y)
    ensures exists c :: c in st.components && x in c
  {
    IdleStackEmpty(g, st);
    var m :| m in modules && Reach(g, m, x);
    ClosedReach(g, Done(st), m, x);
  }

  lemma SearchedLists(g: Graph, modules: set<Node>, st: State)
    requires Inv(g, st, {}) && modules <= st.indices.Keys
    requires forall x :: x in st.indices ==> ReachableFrom(g, modules, x)
    ensures ListsComponents(g, modules, st.components)
  {
    forall c | c in st.components
      ensures Listed(g, st, c) && forall x :: x in c ==> ReachableFrom(g, modules, x)
    {
      ListedReachable(g, modules, st, c);
    }
    forall x, y | ReachableFrom(g, modules, x) && x != y && Mutual(g, x, y)
      ensures exists c :: c in st.components && x in c
    {
      ReachedListed(g, modules, st, x, y);
    }
  }

  /** The arrangement of the components does not matter. */
  lemma ArrangedLists(g: Graph, modules: set<Node>, a: seq<seq<Node>>, b: seq<seq<Node>>)
    requires multiset(a) == multiset(b) && ListsComponents(g, modules, a)
    ensures ListsComponents(g, modules, b)
  {
    forall c ensures c in a <==> c in b { SameMembers(a, b, c); }
    forall x, y | ReachableFrom(g, modules, x) && x != y && Mutual(g, x, y) ensures exists c :: c in b && x in c {
      var c :| c in a && x in c;
      assert c in b;
    }
  }

  lemma SortedReport(components: seq<seq<Node>>)
    ensures Sorted(ReportLeq, Sort(ReportLeq, components))
  {
    ReportOrder();
    SortSorts(ReportLeq, components);
  }

  lemma SearchedReport(g: Graph, modules: set<Node>, st: State)
    requires Inv(g, st, {}) && modules <= st.indices.Keys
    requires forall x :: x in st.indices ==> ReachableFrom(g, modules, x)
    ensures IsReport(g, modules, Sort(ReportLeq, st.components))
  {
    var r := Sort(ReportLeq, st.components);
    SortPermutes(ReportLeq, st.components);
    SortedReport(st.components);
    SearchedLists(g, modules, st);
    ArrangedLists(g, modules, st.components, r);
    forall i | 0 <= i < |st.components| ensures st.components[i] != [] {
      assert Listed(g, st, st.components[i]);
    }
    DisjointPermutation(st.components, r);
    DisjointDistinct(r);
    SortedMeaning(r);
  }

  lemma DisjointDistinct(r: seq<seq<Node>>)
    requires forall i :: 0 <= i < |r| ==> r[i] != []
    requires forall i, j :: 0 <= i < j < |r| ==> Elements(r[i]) !! Elements(r[j])
    ensures Distinct(r)
  {
    assert forall i :: 0 <= i < |r| ==> r[i][0] in Elements(r[i]);
  }

  /** A report lists every component of another report of the same graph. */
  lemma ReportCovers(g: Graph, modules: set<Node>, r: seq<seq<Node>>, q: seq<seq<Node>>, c: seq<Node>)
    requires IsReport(g, modules, r) && IsReport(g, modules, q) && c in r
    ensures c in q
  {
    var x, y := c[0], c[1];
    assert x in Elements(c) && y in Elements(c) && x != y;
    assert Mutual(g, x, y);
    var d :| d in q && x in d;
    assert x in Elements(d);
    forall z ensures z in Elements(c) <==> z in Elements(d) {
      assert z in Elements(c) <==> Mutual(g, x, z);
    }
    assert Elements(c) == Elements(d);
    SortedListUnique(c, d, Elements(c));
  }

  lemma ReportDistinct(g: Graph, modules: set<Node>, r: seq<seq<Node>>)
    requires IsReport(g, modules, r)
    ensures Distinct(r)
  {
    forall i, j | 0 <= i < j < |r| ensures r[i] != r[j] {
      assert r[i] in r;
      assert r[i][0] in Elements(r[i]);
    }
  }

  /** The report is a function of the graph and the modules alone. */
  lemma ReportUnique(g: Graph, modules: set<Node>, r: seq<seq<Node>>, q: seq<seq<Node>>)
    requires IsReport(g, modules, r) && IsReport(g, modules, q)
    ensures r == q
  {
    ReportDistinct(g, modules, r);
    ReportDistinct(g, modules, q);
    DistinctCounts(r);
    DistinctCounts(q);
    forall c ensures multiset(r)[c] == multiset(q)[c] {
      if c in r {
        ReportCovers(g, modules, r, q, c);
      } else if c in q {
        ReportCovers(g, modules, q, r, c);
      }
    }
    assert multiset(r) == multiset(q);
    ReportOrder();
    SortedMeaning(r);
    SortedMeaning(q);
    SortedUnique(ReportLeq, r, q);
  }

  /** `cycleCount` is zero exactly when the import graph has no cycle. */
  lemma CycleCountZero(g: Graph, modules: set<Node>, r: seq<seq<Node>>)
    requires IsReport(g, modules, r)
    requires forall e :: e in g ==> e.0 in modules && e.0 != e.1
    ensures |r| == 0 <==> Acyclic(g)
  {
    AcyclicIffNoMutual(g);
    if |r| > 0 {
      var c := r[0];
      assert c in r;
      assert c[0] in Elements(c) && c[1] in Elements(c) && c[0] != c[1];
      assert Mutual(g, c[0], c[1]);
    } else {
      forall x, y | Mutual(g, x, y) ensures x == y {
        if x != y {
          var p :| WalkBetween(g, p, x, y);
          assert (p[0], p[0 + 1]) in g;
          ReachSelf(g, x);
          assert ReachableFrom(g, modules, x);
          assert false;
        }
      }
    }
  }

  predicate EdgeLeq(a: (Node, Node), b: (Node, Node)) {
    if a.0 == b.0 then StringLeq(a.1, b.1) else StringLeq(a.0, b.0)
  }

  /** By source, then by target, both in ascending order. */
  ghost predicate EdgeBefore(a: (Node, Node), b: (Node, Node)) {
    if a.0 == b.0 then a.1 != b.1 && Ascending(a.1, b.1) else Ascending(a.0, b.0)
  }

  /** Python's `sorted` of a set of edges. */
  ghost predicate EdgeListing(l: seq<(Node, Node)>, edges: Graph) {
    && (forall e :: e in l <==> e in edges)
    && forall i, j :: 0 <= i < j < |l| ==> EdgeBefore(l[i], l[j])
  }

  lemma EdgeOrder()
    ensures Preorder(EdgeLeq)
    ensures forall a, b :: a != b ==> (EdgeLeq(a, b) <==> EdgeBefore(a, b))
  {
    StringOrder();
    forall s: Node, t: Node ensures StringLeq(s, t) <==> Ascending(s, t) { StringLeqMeaning(s, t); }
  }

  lemma EdgesListed(l: seq<(Node, Node)>, edges: Graph)
    requires Distinct(l) && forall e :: e in l <==> e in edges
    ensures EdgeListing(Sort(EdgeLeq, l), edges)
  {
    var sorted := Sort(EdgeLeq, l);
    EdgeOrder();
    SortSorts(EdgeLeq, l);
    SortPermutes(EdgeLeq, l);
    DistinctCounts(l);
    forall e ensures e in sorted <==> e in l { SameMembers(sorted, l, e); }
    CountsDistinct(sorted);
  }

  method ListEdges(edges: Graph) returns (l: seq<(Node, Node)>)
    ensures EdgeListing(l, edges)
  {
    var rest := edges;
    l := [];
    while rest != {}
      invariant rest <= edges && Distinct(l) && forall e :: e in l <==> e in edges && e !in rest
      decreases |rest|
    {
      var e :| e in rest;
      rest := rest - {e};
      l := l + [e];
    }
    EdgesListed(l, edges);
    l := Sort(EdgeLeq, l);
  }

  method BuildAdjacency(edges: Graph) returns (adjacency: map<Node, seq<Node>>)
    ensures AdjacencyOf(adjacency, edges)
  {
    var l := ListEdges(edges);
    adjacency := map[];
    for i := 0 to |l|
      invariant forall x, y :: (x, y) in l[..i] <==> x in adjacency && y in adjacency[x]
    {
      var (source, target) := l[i];
      ghost var before := adjacency;
      adjacency := adjacency[source := (if source in adjacency then adjacency[source] else []) + [target]];
      assert l[..i + 1] == l[..i] + [l[i]];
    }
    assert l[..|l|] == l;
  }

  lemma TargetsClosed(g: Graph, modules: set<Node>)
    ensures Closed(g, modules + set e | e in g :: e.1)
  {
  }

  /** What the search has seen is what the modules done so far reach. */
  ghost predicate Covers(g: Graph, modules: set<Node>, st: State, order: seq<Node>, i: nat)
    requires i <= |order|
  {
    && Inv(g, st, {}) && st.stack == []
    && (forall k :: 0 <= k < i ==> order[k] in st.indices)
    && (forall x :: x in st.indices ==> ReachableFrom(g, modules, x))
  }

  lemma CoversNone(g: Graph, modules: set<Node>, order: seq<Node>)
    ensures Covers(g, modules, Initial, order, 0)
  {
    InitialInv(g);
  }

  /** One top-level visit. */
  lemma CoversMore(g: Graph, modules: set<Node>, a: State, b: State, order: seq<Node>, i: nat)
    requires i < |order| && order[i] in modules && Covers(g, modules, a, order, i)
    requires Inv(g, b, {}) && Visited(g, a, b, order[i])
    ensures Covers(g, modules, b, order, i + 1)
  {
    IdleStackEmpty(g, b);
    forall x | x in b.indices ensures ReachableFrom(g, modules, x) {
      assert x !in a.indices ==> Reach(g, order[i], x);
    }
  }

  lemma CoveredReport(g: Graph, modules: set<Node>, st: State, order: seq<Node>)
    requires IsSortedList(order, modules) && Covers(g, modules, st, order, |order|)
    ensures IsReport(g, modules, Sort(ReportLeq, st.components))
  {
    forall m | m in modules ensures m in st.indices {
      assert m in order;
    }
    SearchedReport(g, modules, st);
  }

  method StronglyConnectedComponents(modules: set<Node>, edges: Graph) returns (r: seq<seq<Node>>)
    ensures IsReport(edges, modules, r)
  {
    var adjacency := BuildAdjacency(edges);
    var search := new Search(adjacency, edges);
    ghost var universe := modules + set e | e in edges :: e.1;
    TargetsClosed(edges, modules);
    var order := SortedListOf(modules);
    CoversNone(edges, modules, order);
    for i := 0 to |order|
      invariant Covers(edges, modules, search.View(), order, i)
    {
      assert order[i] in modules;
      search.VisitModule(order, i, modules, universe);
    }
    CoveredReport(edges, modules, search.View(), order);
    r := Sort(ReportLeq, search.components);
  }
}

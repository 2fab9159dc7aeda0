/** Finite directed graphs given by their edge sets: walks, reachability, strongly connected
    components and cycles. */
module Graphs {
  type Node = string
  type Graph = set<(Node, Node)>

  /** A walk: a non-empty list of nodes joined by edges. */
  ghost predicate Walk(g: Graph, p: seq<Node>) {
    && p != []
    && forall i :: 0 <= i < |p| - 1 ==> (p[i], p[i + 1]) in g
  }

  ghost predicate WalkBetween(g: Graph, p: seq<Node>, x: Node, y: Node) {
    Walk(g, p) && p[0] == x && p[|p| - 1] == y
  }

  ghost predicate Reach(g: Graph, x: Node, y: Node) {
    exists p :: WalkBetween(g, p, x, y)
  }

  ghost predicate Mutual(g: Graph, x: Node, y: Node) {
    Reach(g, x, y) && Reach(g, y, x)
  }

  /** A closed walk with at least one edge. */
  ghost predicate Cycle(g: Graph, p: seq<Node>) {
    Walk(g, p) && |p| > 1 && p[0] == p[|p| - 1]
  }

  ghost predicate Acyclic(g: Graph) {
    forall p :: !Cycle(g, p)
  }

  /** A maximal set of mutually reachable nodes. */
  ghost predicate IsComponent(g: Graph, c: set<Node>) {
    c != {} && forall x, y :: x in c ==> (y in c <==> Mutual(g, x, y))
  }

  ghost predicate Closed(g: Graph, s: set<Node>) {
    forall e :: e in g && e.0 in s ==> e.1 in s
  }

  lemma ReachSelf(g: Graph, x: Node)
    ensures Reach(g, x, x)
  {
    assert WalkBetween(g, [x], x, x);
  }

  lemma ReachEdge(g: Graph, x: Node, y: Node)
    requires (x, y) in g
    ensures Reach(g, x, y)
  {
    assert WalkBetween(g, [x, y], x, y);
  }

  lemma JoinWalks(g: Graph, p: seq<Node>, q: seq<Node>, x: Node, y: Node, z: Node)
    requires WalkBetween(g, p, x, y) && WalkBetween(g, q, y, z)
    ensures WalkBetween(g, p + q[1..], x, z)
  {
    var r := p + q[1..];
    forall i | 0 <= i < |r| - 1 ensures (r[i], r[i + 1]) in g {
      if i >= |p| - 1 {
        assert r[i] == q[i - |p| + 1] && r[i + 1] == q[i - |p| + 2];
      }
    }
  }

  lemma ReachTransitive(g: Graph, x: Node, y: Node, z: Node)
    requires Reach(g, x, y) && Reach(g, y, z)
    ensures Reach(g, x, z)
  {
    var p :| WalkBetween(g, p, x, y);
    var q :| WalkBetween(g, q, y, z);
    JoinWalks(g, p, q, x, y, z);
  }

  lemma {:induction false} ClosedWalk(g: Graph, s: set<Node>, p: seq<Node>, i: nat)
    requires Closed(g, s) && Walk(g, p) && p[0] in s && i < |p|
    ensures p[i] in s
  {
    if i > 0 {
      ClosedWalk(g, s, p, i - 1);
      assert (p[i - 1], p[i - 1 + 1]) in g;
    }
  }

  /** Nothing outside a closed set is reachable from inside it. */
  lemma ClosedReach(g: Graph, s: set<Node>, x: Node, y: Node)
    requires Closed(g, s) && x in s && Reach(g, x, y)
    ensures y in s
  {
    var p :| WalkBetween(g, p, x, y);
    ClosedWalk(g, s, p, |p| - 1);
  }

  lemma WalkSlice(g: Graph, p: seq<Node>, i: nat, j: nat)
    requires Walk(g, p) && i <= j < |p|
    ensures WalkBetween(g, p[i..j + 1], p[i], p[j])
  {
    var r := p[i..j + 1];
    forall k | 0 <= k < |r| - 1 ensures (r[k], r[k + 1]) in g {
      assert (p[i + k], p[i + k + 1]) in g;
    }
  }

  /** All nodes of a cycle are mutually reachable. */
  lemma CycleMutual(g: Graph, p: seq<Node>, i: nat, j: nat)
    requires Cycle(g, p) && i < |p| && j < |p|
    ensures Mutual(g, p[i], p[j])
  {
    WalkSlice(g, p, 0, i);
    WalkSlice(g, p, 0, j);
    WalkSlice(g, p, i, |p| - 1);
    WalkSlice(g, p, j, |p| - 1);
    ReachTransitive(g, p[i], p[|p| - 1], p[j]);
    ReachTransitive(g, p[j], p[|p| - 1], p[i]);
  }

  /** Without self-edges, a graph is acyclic exactly when no two distinct nodes reach each other. */
  lemma AcyclicIffNoMutual(g: Graph)
    requires forall e :: e in g ==> e.0 != e.1
    ensures Acyclic(g) <==> forall x, y :: Mutual(g, x, y) ==> x == y
  {
    if Acyclic(g) {
      forall x, y | Mutual(g, x, y) ensures x == y {
        var p :| WalkBetween(g, p, x, y);
        var q :| WalkBetween(g, q, y, x);
        JoinWalks(g, p, q, x, y, x);
        assert !Cycle(g, p + q[1..]);
      }
    } else {
      var p :| Cycle(g, p);
      assert (p[0], p[0 + 1]) in g;
      CycleMutual(g, p, 0, 1);
    }
  }

  lemma MutualTransitive(g: Graph, x: Node, y: Node, z: Node)
    requires Mutual(g, x, y) && Mutual(g, y, z)
    ensures Mutual(g, x, z)
  {
    ReachTransitive(g, x, y, z);
    ReachTransitive(g, z, y, x);
  }
}

/** Tarjan's search state as a value, and what each of its moves keeps.
    scripts/architecture_baseline.py:135-177. */
module StrongComponents {
  import opened Sorting
  import opened Graphs

  /** The variables `visit` closes over. */
  datatype State = State(
    index: nat,
    stack: seq<Node>,
    onStack: set<Node>,
    indices: map<Node, nat>,
    lowlinks: map<Node, nat>,
    components: seq<seq<Node>>)

  const Initial: State := State(0, [], {}, map[], map[], [])

  ghost function Elements(s: seq<Node>): set<Node> {
    set x | x in s
  }

  /** Nodes whose component has been closed. */
  ghost function Done(st: State): set<Node> {
    st.indices.Keys - st.onStack
  }

  ghost predicate Shape(st: State) {
    && Distinct(st.stack)
    && st.onStack == Elements(st.stack)
    && st.onStack <= st.indices.Keys
    && st.indices.Keys == st.lowlinks.Keys
    && (forall x :: x in st.indices ==> st.indices[x] < st.index)
    && (forall i, j {:trigger st.indices[st.stack[i]], st.indices[st.stack[j]]} ::
          0 <= i < j < |st.stack| ==> st.indices[st.stack[i]] < st.indices[st.stack[j]])
  }

  /** Lower stack entries reach higher ones. */
  ghost predicate Linked(g: Graph, st: State) {
    forall i, j {:trigger Reach(g, st.stack[i], st.stack[j])} ::
      0 <= i <= j < |st.stack| ==> Reach(g, st.stack[i], st.stack[j])
  }

  /** `r` is an active call at or below `y` on the stack that `y` reaches. */
  ghost predicate RootOf(g: Graph, st: State, active: set<Node>, y: Node, r: Node)
    requires Shape(st) && y in st.onStack
  {
    r in active && r in st.onStack && st.indices[r] <= st.indices[y] && Reach(g, y, r)
  }

  ghost predicate HasRoot(g: Graph, st: State, active: set<Node>, y: Node)
    requires Shape(st) && y in st.onStack
  {
    exists r :: RootOf(g, st, active, y, r)
  }

  /** Every stack entry reaches an active call below it. */
  ghost predicate Rooted(g: Graph, st: State, active: set<Node>)
    requires Shape(st)
  {
    active <= st.onStack &&
    forall y {:trigger HasRoot(g, st, active, y)} :: y in st.onStack ==> HasRoot(g, st, active, y)
  }

  /** Only active calls may still have unvisited successors. */
  ghost predicate Explored(g: Graph, st: State, active: set<Node>) {
    forall e :: e in g && e.0 in st.indices && e.0 !in active ==> e.1 in st.indices
  }

  ghost predicate Listed(g: Graph, st: State, c: seq<Node>) {
    |c| > 1 && IsSortedList(c, Elements(c)) && IsComponent(g, Elements(c)) && Elements(c) <= Done(st)
  }

  /** The reported lists are exactly the closed components with more than one node. */
  ghost predicate Reported(g: Graph, st: State) {
    && (forall c :: c in st.components ==> Listed(g, st, c))
    && (forall x, y :: x in Done(st) && x != y && Mutual(g, x, y) ==> exists c :: c in st.components && x in c)
    && (forall i, j :: 0 <= i < j < |st.components| ==> Elements(st.components[i]) !! Elements(st.components[j]))
  }

  /** What holds whenever no assignment of `visit` is in progress; `active` is the call stack. */
  ghost predicate Inv(g: Graph, st: State, active: set<Node>) {
    && Shape(st)
    && Linked(g, st)
    && Rooted(g, st, active)
    && Explored(g, st, active)
    && Closed(g, Done(st))
    && Reported(g, st)
  }

  lemma InitialInv(g: Graph)
    ensures Inv(g, Initial, {})
  {
  }

  // ----- Entering a call: lines 151-155 -----

  function Push(st: State, v: Node): State {
    State(st.index + 1, st.stack + [v], st.onStack + {v},
          st.indices[v := st.index], st.lowlinks[v := st.index], st.components)
  }

  lemma PushShape(st: State, v: Node)
    requires Shape(st) && v !in st.indices
    ensures Shape(Push(st, v)) && Done(Push(st, v)) == Done(st)
  {
    assert Elements(st.stack + [v]) == Elements(st.stack) + {v};
    assert forall i :: 0 <= i < |st.stack| ==> st.stack[i] in st.onStack;
  }

  lemma StackReaches(g: Graph, st: State, active: set<Node>, v: Node, y: Node)
    requires Shape(st) && Rooted(g, st, active) && y in st.onStack
    requires forall x :: x in active ==> Reach(g, x, v)
    ensures Reach(g, y, v)
  {
    assert HasRoot(g, st, active, y);
    var r :| RootOf(g, st, active, y, r);
    ReachTransitive(g, y, r, v);
  }

  lemma PushLinked(g: Graph, st: State, active: set<Node>, v: Node)
    requires Shape(st) && Linked(g, st) && Rooted(g, st, active)
    requires forall x :: x in active ==> Reach(g, x, v)
    ensures Linked(g, Push(st, v))
  {
    ReachSelf(g, v);
    forall i | 0 <= i < |st.stack| ensures Reach(g, st.stack[i], v) {
      assert st.stack[i] in st.onStack;
      StackReaches(g, st, active, v, st.stack[i]);
    }
  }

  lemma PushRooted(g: Graph, st: State, active: set<Node>, v: Node)
    requires Shape(st) && Rooted(g, st, active) && v !in st.indices && Shape(Push(st, v))
    ensures Rooted(g, Push(st, v), active + {v})
  {
    var st' := Push(st, v);
    forall y | y in st'.onStack ensures HasRoot(g, st', active + {v}, y) {
      if y == v {
        ReachSelf(g, v);
        assert RootOf(g, st', active + {v}, v, v);
      } else {
        assert HasRoot(g, st, active, y);
        var r :| RootOf(g, st, active, y, r);
        assert RootOf(g, st', active + {v}, y, r);
      }
    }
  }

  lemma PushInv(g: Graph, st: State, active: set<Node>, v: Node)
    requires Inv(g, st, active) && v !in st.indices
    requires forall x :: x in active ==> Reach(g, x, v)
    ensures Inv(g, Push(st, v), active + {v})
  {
    PushShape(st, v);
    PushLinked(g, st, active, v);
    PushRooted(g, st, active, v);
    ReportedKept(g, st, Push(st, v));
  }

  lemma ReportedKept(g: Graph, st: State, st': State)
    requires Reported(g, st) && Done(st') == Done(st) && st'.components == st.components
    ensures Reported(g, st')
  {
    assert forall c :: Listed(g, st, c) ==> Listed(g, st', c);
  }

  // ----- Updating a lowlink: lines 159, 161 -----

  function SetLow(st: State, v: Node, low: nat): State {
    st.(lowlinks := st.lowlinks[v := low])
  }

  lemma SetLowInv(g: Graph, st: State, active: set<Node>, v: Node, low: nat)
    requires Inv(g, st, active) && v in st.indices
    ensures Inv(g, SetLow(st, v, low), active)
  {
    var st' := SetLow(st, v, low);
    assert Shape(st');
    forall y | y in st'.onStack ensures HasRoot(g, st', active, y) {
      assert HasRoot(g, st, active, y);
      var r :| RootOf(g, st, active, y, r);
      assert RootOf(g, st', active, y, r);
    }
    ReportedKept(g, st, st');
  }

  // ----- Leaving a call below its root: lines 162-163 -----

  /** `y` keeps its root, or takes `r`, which lies below `v`, instead of `v`. */
  lemma Reroot(g: Graph, st: State, active: set<Node>, v: Node, y: Node, r: Node)
    requires Shape(st) && y in st.onStack && v in st.onStack && HasRoot(g, st, active + {v}, y)
    requires RootOf(g, st, active, v, r)
    ensures HasRoot(g, st, active, y)
  {
    var q :| RootOf(g, st, active + {v}, y, q);
    if q == v {
      ReachTransitive(g, y, v, r);
      assert RootOf(g, st, active, y, r);
    } else {
      assert RootOf(g, st, active, y, q);
    }
  }

  lemma LeaveRooted(g: Graph, st: State, active: set<Node>, v: Node, low: Node)
    requires Shape(st) && Rooted(g, st, active + {v})
    requires v in st.onStack && low in st.onStack && st.indices[low] < st.indices[v] && Reach(g, v, low)
    ensures Rooted(g, st, active)
  {
    assert HasRoot(g, st, active + {v}, low);
    var r :| RootOf(g, st, active + {v}, low, r);
    ReachTransitive(g, v, low, r);
    assert RootOf(g, st, active, v, r);
    forall y | y in st.onStack ensures HasRoot(g, st, active, y) {
      Reroot(g, st, active, v, y, r);
    }
  }

  lemma LeaveInv(g: Graph, st: State, active: set<Node>, v: Node, low: Node)
    requires Inv(g, st, active + {v})
    requires v in st.onStack && low in st.onStack && st.indices[low] < st.indices[v] && Reach(g, v, low)
    requires forall e :: e in g && e.0 == v ==> e.1 in st.indices
    ensures Inv(g, st, active)
  {
    LeaveRooted(g, st, active, v, low);
  }

  // ----- Closing a component: lines 164-172 -----

  /** Edges from the stack above position `k` to the stack below it lead no lower than `low`. */
  ghost predicate Crossing(g: Graph, st: State, k: nat, low: nat)
    requires Shape(st) && k <= |st.stack|
  {
    forall e :: e in g && e.0 in st.stack[k..] && e.1 in st.stack[..k] ==>
      e.1 in st.indices && low <= st.indices[e.1]
  }

  function Pop(st: State, k: nat, component: seq<Node>): State
    requires k <= |st.stack|
  {
    st.(stack := st.stack[..k],
        onStack := st.onStack - (set x | x in component),
        components := if |component| > 1 then st.components + [Sort(StringLeq, component)] else st.components)
  }

  /** The situation when `v` at stack position `k` turns out to be the root of a component. */
  ghost predicate RootFound(g: Graph, st: State, active: set<Node>, v: Node, k: nat) {
    && Inv(g, st, active + {v})
    && k < |st.stack| && st.stack[k] == v
    && active <= Elements(st.stack[..k])
    && (forall e :: e in g && e.0 == v ==> e.1 in st.indices)
    && Crossing(g, st, k, st.indices[v])
  }

  lemma LowerPart(st: State, k: nat, i: nat)
    requires Shape(st) && i < k < |st.stack|
    ensures st.stack[i] in st.onStack && st.stack[k] in st.onStack
    ensures st.indices[st.stack[i]] < st.indices[st.stack[k]]
  {
  }

  lemma StackPart(st: State, k: nat, x: Node)
    requires Shape(st) && k < |st.stack| && x in st.onStack
    ensures st.stack[k] in st.onStack
    ensures x in st.stack[..k] <==> st.indices[x] < st.indices[st.stack[k]]
    ensures x in st.stack[k..] <==> st.indices[st.stack[k]] <= st.indices[x]
  {
    var i :| 0 <= i < |st.stack| && st.stack[i] == x;
    if i < k {
      LowerPart(st, k, i);
      assert st.stack[..k][i] == x;
    } else {
      assert st.stack[k..][i - k] == x;
    }
  }

  lemma SplitStack(st: State, k: nat)
    requires Shape(st) && k < |st.stack|
    ensures st.onStack == Elements(st.stack[..k]) + Elements(st.stack[k..])
    ensures Elements(st.stack[..k]) !! Elements(st.stack[k..])
    ensures Distinct(st.stack[..k]) && Distinct(st.stack[k..])
    ensures forall x :: x in st.stack[..k] ==> st.indices[x] < st.indices[st.stack[k]]
    ensures forall x :: x in st.stack[k..] ==> st.indices[st.stack[k]] <= st.indices[x]
  {
    assert st.stack == st.stack[..k] + st.stack[k..];
    forall x | x in st.onStack
      ensures x in st.stack[..k] <==> st.indices[x] < st.indices[st.stack[k]]
      ensures x in st.stack[k..] <==> st.indices[st.stack[k]] <= st.indices[x]
    {
      StackPart(st, k, x);
    }
  }

  /** Edges leaving the closing component lead into it or into closed components. */
  lemma ClosingClosed(g: Graph, st: State, active: set<Node>, v: Node, k: nat)
    requires RootFound(g, st, active, v, k)
    ensures Closed(g, Done(st) + Elements(st.stack[k..]))
  {
    SplitStack(st, k);
    forall e | e in g && e.0 in Done(st) + Elements(st.stack[k..])
      ensures e.1 in Done(st) + Elements(st.stack[k..])
    {
      if e.0 in Elements(st.stack[k..]) {
        assert e.1 in st.indices && e.1 !in st.stack[..k];
      }
    }
  }

  /** The popped stretch of the stack is a strongly connected component. */
  lemma ClosingComponent(g: Graph, st: State, active: set<Node>, v: Node, k: nat)
    requires RootFound(g, st, active, v, k)
    ensures IsComponent(g, Elements(st.stack[k..]))
  {
    var c := Elements(st.stack[k..]);
    SplitStack(st, k);
    ClosingClosed(g, st, active, v, k);
    assert st.stack[k..][0] == v;
    forall x | x in c ensures Mutual(g, v, x) {
      var i :| 0 <= i < |st.stack| - k && st.stack[k..][i] == x;
      assert Reach(g, st.stack[k], st.stack[k + i]);
      assert HasRoot(g, st, active + {v}, x);
      var r :| RootOf(g, st, active + {v}, x, r);
      ClosedReach(g, Done(st) + c, x, r);
      assert r == v;
    }
    forall x, y | x in c ensures y in c <==> Mutual(g, x, y) {
      if y in c {
        MutualTransitive(g, x, v, y);
      } else if Mutual(g, x, y) {
        ClosedReach(g, Done(st) + c, x, y);
        ClosedReach(g, Done(st), y, x);
        assert false;
      }
    }
  }

  lemma PopShape(st: State, k: nat, component: seq<Node>)
    requires Shape(st) && k < |st.stack| && Elements(component) == Elements(st.stack[k..])
    ensures Shape(Pop(st, k, component))
    ensures Done(Pop(st, k, component)) == Done(st) + Elements(st.stack[k..])
  {
    SplitStack(st, k);
    assert (set x | x in component) == Elements(component);
  }

  lemma PopRooted(g: Graph, st: State, active: set<Node>, v: Node, k: nat, component: seq<Node>)
    requires RootFound(g, st, active, v, k) && Elements(component) == Elements(st.stack[k..])
    requires Shape(Pop(st, k, component))
    ensures Rooted(g, Pop(st, k, component), active)
  {
    var st' := Pop(st, k, component);
    SplitStack(st, k);
    forall y | y in st'.onStack ensures HasRoot(g, st', active, y) {
      assert y in st.stack[..k];
      assert HasRoot(g, st, active + {v}, y);
      var r :| RootOf(g, st, active + {v}, y, r);
      assert r != v;
      assert r in st.stack[..k];
      assert RootOf(g, st', active, y, r);
    }
  }

  /** The sorted list of a closing component. */
  lemma ClosedListed(g: Graph, st': State, c: set<Node>, component: seq<Node>)
    requires IsComponent(g, c) && c <= Done(st') && Distinct(component) && Elements(component) == c && |component| > 1
    ensures Listed(g, st', Sort(StringLeq, component)) && Elements(Sort(StringLeq, component)) == c
  {
    SortIsSortedList(component);
    SortPermutes(StringLeq, component);
    assert Elements(Sort(StringLeq, component)) == c;
  }

  /** A component of one node has no one else in it. */
  lemma SingleAlone(g: Graph, c: set<Node>, component: seq<Node>, x: Node, y: Node)
    requires IsComponent(g, c) && Elements(component) == c && x in c && x != y && Mutual(g, x, y)
    ensures |component| > 1
  {
    assert x in component && y in component;
  }

  lemma ReportOne(g: Graph, st: State, st': State, c: set<Node>, l: seq<Node>)
    requires Reported(g, st) && c !! Done(st) && Done(st') == Done(st) + c
    requires Listed(g, st', l) && Elements(l) == c && st'.components == st.components + [l]
    ensures Reported(g, st')
  {
    var n := |st.components|;
    forall e | e in st'.components ensures Listed(g, st', e) {
      if e != l {
        assert e in st.components && Listed(g, st, e);
      }
    }
    forall x, y | x in Done(st') && x != y && Mutual(g, x, y) ensures exists e :: e in st'.components && x in e {
      if x in Done(st) {
        var e :| e in st.components && x in e;
        assert e in st'.components;
      } else {
        assert st'.components[n] == l && l in st'.components && x in Elements(l);
      }
    }
    forall i, j | 0 <= i < j < n + 1 ensures Elements(st'.components[i]) !! Elements(st'.components[j]) {
      if j == n {
        assert st.components[i] in st.components && Listed(g, st, st.components[i]);
      }
    }
  }

  lemma PopReported(g: Graph, st: State, st': State, c: set<Node>, component: seq<Node>)
    requires Reported(g, st) && IsComponent(g, c) && c !! Done(st) && Done(st') == Done(st) + c
    requires Distinct(component) && Elements(component) == c
    requires st'.components ==
             if |component| > 1 then st.components + [Sort(StringLeq, component)] else st.components
    ensures Reported(g, st')
  {
    if |component| > 1 {
      ClosedListed(g, st', c, component);
      ReportOne(g, st, st', c, Sort(StringLeq, component));
    } else {
      assert forall e :: Listed(g, st, e) ==> Listed(g, st', e);
      forall x, y | x in Done(st') && x != y && Mutual(g, x, y) ensures x in Done(st) {
        if x in c {
          SingleAlone(g, c, component, x, y);
        }
      }
    }
  }

  lemma PopInv(g: Graph, st: State, active: set<Node>, v: Node, k: nat, component: seq<Node>)
    requires RootFound(g, st, active, v, k)
    requires Distinct(component) && Elements(component) == Elements(st.stack[k..])
    ensures Inv(g, Pop(st, k, component), active)
  {
    var st' := Pop(st, k, component);
    var c := Elements(st.stack[k..]);
    SplitStack(st, k);
    ClosingClosed(g, st, active, v, k);
    ClosingComponent(g, st, active, v, k);
    PopShape(st, k, component);
    PopRooted(g, st, active, v, k, component);
    PopReported(g, st, st', c, component);
    assert v in c;
  }
}

/** From import statements to the import graph and its cycle report,
    scripts/architecture_baseline.py:51-59, 92-96 and 180-223. */
module ImportGraph {
  import opened Wrappers
  import opened Text
  import opened Graphs
  import opened ImportCycles

  // ----- `candidate.strip(".")` -----

  predicate Dot(c: char) {
    c == '.'
  }

  function Stripped(candidate: string): string {
    StripOf(Dot, candidate)
  }

  /** The position of the last dot, or -1. */
  function LastDot(s: string): (i: int)
    ensures -1 <= i < |s|
    ensures i >= 0 ==> s[i] == '.'
    ensures forall k :: i < k < |s| ==> s[k] != '.'
  {
    if s == [] then -1 else if s[|s| - 1] == '.' then |s| - 1 else LastDot(s[..|s| - 1])
  }

  /** `s[..n]` names `s` or one of its enclosing packages. */
  ghost predicate Dotted(s: string, n: nat) {
    0 < n <= |s| && (n == |s| || s[n] == '.')
  }

  /** `t` is the longest known dotted prefix of the stripped candidate. */
  ghost predicate Resolves(candidate: string, known: set<Node>, t: Node) {
    var s := Stripped(candidate);
    && t <= s && Dotted(s, |t|) && t in known
    && forall n :: |t| < n <= |s| && Dotted(s, n) ==> s[..n] !in known
  }

  method KnownTarget(candidate: string, known: set<Node>) returns (r: Option<Node>)
    ensures r.Some? ==> Resolves(candidate, known, r.value)
    ensures r.None? ==> forall t :: !Resolves(candidate, known, t)
  {
    var s := Stripped(candidate);
    var current := s;
    while current != []
      invariant current <= s && (current != [] ==> Dotted(s, |current|))
      invariant forall n :: |current| < n <= |s| && Dotted(s, n) ==> s[..n] !in known
      decreases |current|
    {
      if current in known {
        return Some(current);
      }
      assert s[..|current|] == current;
      var dot := LastDot(current);
      if dot == -1 {
        NoneKnown(candidate, known, |current|);
        return None;
      }
      current := current[..dot];
    }
    NoneKnown(candidate, known, 1);
    return None;
  }

  lemma NoneKnown(candidate: string, known: set<Node>, m: nat)
    requires forall n :: m <= n <= |Stripped(candidate)| && Dotted(Stripped(candidate), n) ==>
               Stripped(candidate)[..n] !in known
    requires forall n :: 0 < n < m ==> !Dotted(Stripped(candidate), n)
    ensures forall t :: !Resolves(candidate, known, t)
  {
    forall t ensures !Resolves(candidate, known, t) {
      var s := Stripped(candidate);
      assert t <= s ==> s[..|t|] == t;
    }
  }

  /** What it means for a name to resolve: without the dots around it, a known dotted prefix of it,
      and the longest. */
  lemma ResolvesMeaning(candidate: string, known: set<Node>, t: Node)
    ensures Resolves(candidate, known, t) <==>
            exists s :: Trimmed(candidate, s, {'.'}) && LongestKnown(s, known, t)
  {
    var s := Stripped(candidate);
    StripOfMeaning(Dot, candidate, s, {'.'});
    assert forall n :: 0 < n <= |s| ==> |s[..n]| == n;
    if r :| Trimmed(candidate, r, {'.'}) && LongestKnown(r, known, t) {
      StripOfMeaning(Dot, candidate, r, {'.'});
    }
  }

  /** `t` is known, `t` is `s` or followed by a dot in `s`, and no longer such prefix is known. */
  ghost predicate LongestKnown(s: string, known: set<Node>, t: Node) {
    && t in known && t != "" && t <= s && (t == s || s[|t|] == '.')
    && forall n :: |t| < n <= |s| && (n == |s| || s[n] == '.') ==> s[..n] !in known
  }

  /** A candidate resolves to at most one module. */
  lemma ResolvesUnique(candidate: string, known: set<Node>, t: Node, u: Node)
    requires Resolves(candidate, known, t) && Resolves(candidate, known, u)
    ensures t == u
  {
    var s := Stripped(candidate);
    assert t == s[..|t|] && u == s[..|u|];
  }

  /** The last loop of `_import_targets`: the module itself is never a target. */
  method ImportTargets(name: Node, candidates: seq<string>, known: set<Node>) returns (targets: set<Node>)
    ensures forall t :: t in targets <==> t != name && exists c :: c in candidates && Resolves(c, known, t)
    ensures name !in targets && targets <= known
  {
    targets := {};
    for i := 0 to |candidates|
      invariant forall t :: t in targets <==> t != name && exists c :: c in candidates[..i] && Resolves(c, known, t)
    {
      var resolved := KnownTarget(candidates[i], known);
      ghost var before := targets;
      assert candidates[..i + 1] == candidates[..i] + [candidates[i]];
      if resolved.Some? && resolved.value != name {
        targets := targets + {resolved.value};
      }
      forall t ensures t in targets <==> t != name && exists c :: c in candidates[..i + 1] && Resolves(c, known, t) {
        if Resolves(candidates[i], known, t) {
          ResolvesUnique(candidates[i], known, t, resolved.value);
        }
      }
    }
    assert candidates[..|candidates|] == candidates;
    forall t | t in targets ensures t in known {
      var c :| c in candidates && Resolves(c, known, t);
    }
  }

  /** A source file: its module name and the names its imports mention. */
  datatype File = File(name: Node, candidates: seq<string>)

  ghost predicate Imports(files: seq<File>, known: set<Node>, e: (Node, Node)) {
    e.0 != e.1 && exists f, c :: f in files && f.name == e.0 && c in f.candidates && Resolves(c, known, e.1)
  }

  /** The `dependencyGraph` part of `build_report`: for any set of files the edges are exactly the
      resolved imports between different modules, listed in order, and `cycleCount` is zero
      exactly when they form no cycle. */
  method BuildReport(files: seq<File>) returns (edges: Graph, listed: seq<(Node, Node)>, cycles: seq<seq<Node>>)
    ensures var known := set f | f in files :: f.name;
            && (forall e :: e in edges <==> Imports(files, known, e))
            && EdgeListing(listed, edges) && IsReport(edges, known, cycles)
            && (|cycles| == 0 <==> Acyclic(edges))
  {
    var known := set f | f in files :: f.name;
    edges := {};
    for i := 0 to |files|
      invariant forall e :: e in edges <==> Imports(files[..i], known, e)
    {
      var targets := ImportTargets(files[i].name, files[i].candidates, known);
      var added := set t | t in targets :: (files[i].name, t);
      assert files[..i + 1] == files[..i] + [files[i]];
      forall e ensures Imports(files[..i + 1], known, e) <==> Imports(files[..i], known, e) || e in added {
        AddFile(files[..i], files[i], known, targets, e);
      }
      edges := edges + added;
    }
    assert files[..|files|] == files;
    cycles := StronglyConnectedComponents(known, edges);
    forall e | e in edges ensures e.0 in known && e.0 != e.1 {
      assert Imports(files, known, e);
    }
    CycleCountZero(edges, known, cycles);
    listed := ListEdges(edges);
  }

  lemma AddFile(files: seq<File>, f: File, known: set<Node>, targets: set<Node>, e: (Node, Node))
    requires forall t :: t in targets <==> t != f.name && exists c :: c in f.candidates && Resolves(c, known, t)
    ensures Imports(files + [f], known, e) <==> Imports(files, known, e) || (e.0 == f.name && e.1 in targets)
  {
    if Imports(files + [f], known, e) {
      var g, c :| g in files + [f] && g.name == e.0 && c in g.candidates && Resolves(c, known, e.1);
      assert g in files || g == f;
    }
    if Imports(files, known, e) {
      var g, c :| g in files && g.name == e.0 && c in g.candidates && Resolves(c, known, e.1);
      assert g in files + [f];
    } else if e.0 == f.name && e.1 in targets {
      var c :| c in f.candidates && Resolves(c, known, e.1);
      assert f in files + [f];
    }
  }
}

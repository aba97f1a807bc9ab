/**
 The paths enumerated from the graph of allowed argument sequences, and their exact
 relation to the expansions of the argument list.
 */
module ArgumentPaths {
  import opened Common
  import opened Arguments
  import opened ArgumentGraph

  /** Every edge goes from an earlier to a later node: what makes the enumeration finite. */
  ghost predicate Forward(e: Edges, order: seq<Arg>) {
    forall a, b :: HasEdge(e, a, b) ==> a in order && b in order && IndexOf(order, a) < IndexOf(order, b)
  }

  // ----- The enumeration -----

  function Children(e: Edges, first: Arg, visited: Path): (r: seq<Arg>)
    requires visited != [] ==> Last(visited) in e
  {
    if visited == [] then [first] else e[Last(visited)]
  }

  ghost predicate Offered(e: Edges, first: Arg, visited: Path, c: Arg) {
    if visited == [] then c == first else HasEdge(e, Last(visited), c)
  }

  ghost function Remaining(order: seq<Arg>, visited: Path): nat {
    if visited == [] || Last(visited) !in order then |order| + 1
    else |order| - IndexOf(order, Last(visited))
  }

  /** Paths that end with a child, then the paths through the children that have successors. */
  function GetPaths(e: Edges, first: Arg, ghost order: seq<Arg>, visited: Path): (r: seq<Path>)
    requires Forward(e, order) && first in order
    requires visited != [] ==> Last(visited) in order && Last(visited) in e
    decreases Remaining(order, visited), 1, 0
  {
    var children := Children(e, first, visited);
    assert forall c :: c in children ==> Offered(e, first, visited, c);
    LeafPaths(e, visited, children) + DeeperPaths(e, first, order, visited, children)
  }

  function LeafPaths(e: Edges, visited: Path, children: seq<Arg>): (r: seq<Path>) {
    if children == [] then []
    else (if children[0] !in e then [visited + [children[0]]] else []) + LeafPaths(e, visited, children[1..])
  }

  function DeeperPaths(e: Edges, first: Arg, ghost order: seq<Arg>, visited: Path, children: seq<Arg>): (r: seq<Path>)
    requires Forward(e, order) && first in order
    requires forall c :: c in children ==> Offered(e, first, visited, c)
    decreases Remaining(order, visited), 0, |children|
  {
    if children == [] then []
    else
      assert Offered(e, first, visited, children[0]);
      (if children[0] in e then GetPaths(e, first, order, visited + [children[0]]) else []) +
      DeeperPaths(e, first, order, visited, children[1..])
  }

  // ----- What is enumerated: the chains that cannot be extended -----

  ghost predicate Completes(e: Edges, visited: Path, children: seq<Arg>, p: Path) {
    && |visited| < |p|
    && visited == p[..|visited|]
    && p[|visited|] in children
    && (forall i :: |visited| <= i < |p| - 1 ==> HasEdge(e, p[i], p[i + 1]))
    && Last(p) !in e
  }

  lemma {:induction false} LeafPathsAre(e: Edges, visited: Path, children: seq<Arg>, p: Path)
    ensures p in LeafPaths(e, visited, children) <==> Completes(e, visited, children, p) && |p| == |visited| + 1
  {
    if children != [] {
      LeafPathsAre(e, visited, children[1..], p);
      assert children == [children[0]] + children[1..];
      if |p| == |visited| + 1 && visited == p[..|visited|] {
        assert p == visited + [p[|visited|]];
      }
    }
  }

  lemma {:induction false} GetPathsAre(e: Edges, first: Arg, order: seq<Arg>, visited: Path, p: Path)
    requires Forward(e, order) && first in order
    requires visited != [] ==> Last(visited) in order && Last(visited) in e
    ensures p in GetPaths(e, first, order, visited) <==> Completes(e, visited, Children(e, first, visited), p)
    decreases Remaining(order, visited), 1, 0
  {
    var children := Children(e, first, visited);
    assert forall c :: c in children ==> Offered(e, first, visited, c);
    LeafPathsAre(e, visited, children, p);
    DeeperPathsAre(e, first, order, visited, children, p);
  }

  lemma {:induction false} DeeperPathsAre(
    e: Edges, first: Arg, order: seq<Arg>, visited: Path, children: seq<Arg>, p: Path)
    requires Forward(e, order) && first in order
    requires forall c :: c in children ==> Offered(e, first, visited, c)
    ensures p in DeeperPaths(e, first, order, visited, children) <==>
            Completes(e, visited, children, p) && |p| > |visited| + 1
    decreases Remaining(order, visited), 0, |children|
  {
    if children != [] {
      var c := children[0];
      assert children == [c] + children[1..];
      assert Offered(e, first, visited, c);
      DeeperPathsAre(e, first, order, visited, children[1..], p);
      ThroughChild(e, visited, c, p);
      if c in e {
        GetPathsAre(e, first, order, visited + [c], p);
      }
    }
  }

  lemma ThroughChild(e: Edges, visited: Path, c: Arg, p: Path)
    ensures (c in e && Completes(e, visited + [c], e[c], p)) <==> Completes(e, visited, [c], p) && |p| > |visited| + 1
  {
    var next := visited + [c];
    if |p| > |visited| + 1 {
      assert next == p[..|next|] <==> visited == p[..|visited|] && p[|visited|] == c by {
        assert p[..|next|] == p[..|visited|] + [p[|visited|]];
      }
      assert c !in e ==> !HasEdge(e, c, p[|next|]);
      if c in e && Completes(e, next, e[c], p) {
        forall i | |visited| <= i < |p| - 1
          ensures HasEdge(e, p[i], p[i + 1])
        {
        }
      }
    }
  }

  // ----- The graph of a command -----

  /** A command's argument list starts with its name, and its argument objects are distinct. */
  ghost predicate IsCommand(args: seq<Arg>) {
    args != [] && args[0].Keyword? && Distinct(Nodes(args))
  }

  ghost function EdgesOf(args: seq<Arg>): Edges {
    Added(map[], args)
  }

  lemma {:induction false} StartsWithName(args: seq<Arg>)
    requires args != [] && !args[0].Opt?
    ensures Roots(args) == [args[0]]
    ensures Nodes(args) != [] && Nodes(args)[0] == args[0]
  {
    if |args| > 1 {
      assert Init(args)[0] == args[0];
      StartsWithName(Init(args));
    }
  }

  lemma {:induction false} IndexIs<T>(s: seq<T>, k: nat)
    requires Distinct(s) && k < |s|
    ensures IndexOf(s, s[k]) == k
  {
  }

  lemma IndexInParts<T>(a: seq<T>, b: seq<T>, x: T)
    requires Distinct(a + b)
    ensures x in a ==> IndexOf(a + b, x) == IndexOf(a, x)
    ensures x in b ==> IndexOf(a + b, x) == |a| + IndexOf(b, x)
  {
    if x in a {
      IndexIs(a + b, IndexOf(a, x));
    }
    if x in b {
      IndexIs(a + b, |a| + IndexOf(b, x));
    }
  }

  lemma {:induction false} FollowsForward(args: seq<Arg>, a: Arg, b: Arg)
    requires Distinct(Nodes(args)) && Follows(args, a, b)
    ensures a in Nodes(args) && b in Nodes(args) && IndexOf(Nodes(args), a) < IndexOf(Nodes(args), b)
    decreases args
  {
    var init, last := Init(args), Last(args);
    FollowsNodes(args, a, b);
    EdgeSide(args, a, b);
    DistinctParts(Nodes(init), NodesOf(last));
    IndexInParts(Nodes(init), NodesOf(last), a);
    IndexInParts(Nodes(init), NodesOf(last), b);
    if a in NodesOf(last) {
      FollowsForward(last.args, a, b);
    } else if b in Nodes(init) {
      FollowsForward(init, a, b);
    }
  }

  lemma EdgesForward(args: seq<Arg>)
    requires Distinct(Nodes(args))
    ensures Forward(EdgesOf(args), Nodes(args))
  {
    forall a, b | HasEdge(EdgesOf(args), a, b)
      ensures a in Nodes(args) && b in Nodes(args) && IndexOf(Nodes(args), a) < IndexOf(Nodes(args), b)
    {
      AddedEdges(map[], args, a);
      FollowsForward(args, a, b);
    }
  }

  /** All the paths the graph of a command enumerates. */
  ghost function Enumerated(args: seq<Arg>): (r: seq<Path>)
    requires IsCommand(args)
  {
    EdgesForward(args);
    StartsWithName(args);
    GetPaths(EdgesOf(args), Roots(args)[0], Nodes(args), [])
  }

  lemma {:induction false} UnconnectedIsLeaf(args: seq<Arg>, n: Arg)
    requires n in Nodes(args) && !Source(args, n)
    ensures n in Leaves(args)
    decreases args
  {
    if n in Nodes(Init(args)) {
      UnconnectedIsLeaf(Init(args), n);
    } else if Last(args).Opt? {
      UnconnectedIsLeaf(Last(args).args, n);
    }
  }

  /** A path is enumerated exactly when it starts at the name, follows edges and ends without an entry. */
  lemma EnumeratedAre(args: seq<Arg>, p: Path)
    requires IsCommand(args)
    ensures p in Enumerated(args) <==> p != [] && p[0] == args[0] && Chain(args, p) && !Source(args, Last(p))
  {
    EdgesForward(args);
    StartsWithName(args);
    GetPathsAre(EdgesOf(args), args[0], Nodes(args), [], p);
    forall a
      ensures a in EdgesOf(args) <==> Source(args, a)
      ensures forall b :: HasEdge(EdgesOf(args), a, b) <==> Follows(args, a, b)
    {
      AddedEdges(map[], args, a);
    }
  }

  lemma EnumeratedIsExpansion(args: seq<Arg>, p: Path)
    requires IsCommand(args) && p in Enumerated(args)
    ensures Expands(args, p)
  {
    EnumeratedAre(args, p);
    StartsWithName(args);
    if |p| > 1 {
      FollowsNodes(args, p[|p| - 2], p[|p| - 1]);
    }
    UnconnectedIsLeaf(args, Last(p));
    RouteIsExpansion(args, p);
  }

  // ----- When every expansion can be reached -----

  /** The list ends, perhaps inside optional groups, in an optional group that holds no argument. */
  predicate EndsInEmptyGroup(args: seq<Arg>) {
    && args != []
    && Last(args).Opt?
    && if Nodes(Last(args).args) == [] then Nodes(Init(args)) != [] else EndsInEmptyGroup(Last(args).args)
  }

  lemma {:induction false} GroupsHaveRoots(args: seq<Arg>)
    requires Nodes(args) != []
    ensures Roots(args) != []
    decreases args
  {
    var init := Init(args);
    if Nodes(init) != [] {
      GroupsHaveRoots(init);
    } else if init != [] {
      AllOptional(init);
    }
    if Last(args).Opt? && Nodes(Last(args).args) != [] {
      GroupsHaveRoots(Last(args).args);
    }
  }

  lemma {:induction false} AllOptional(args: seq<Arg>)
    requires Nodes(args) == []
    ensures Nullable(args)
  {
    if args != [] {
      AllOptional(Init(args));
      assert args == Init(args) + [Last(args)];
    }
  }

  lemma FollowsLast(args: seq<Arg>, a: Arg, b: Arg)
    requires args != [] && a in Leaves(Init(args)) && b in RootsOf(Last(args))
    ensures Follows(args, a, b)
  {
  }

  lemma {:induction false} SourceGoesOn(args: seq<Arg>, a: Arg)
    requires Source(args, a)
    ensures a !in Leaves(args) ==> exists b :: Follows(args, a, b)
    decreases args
  {
    var init, last := Init(args), Last(args);
    if Source(init, a) {
      SourceGoesOn(init, a);
    }
    if a in Leaves(init) {
      if last.Opt? {
        assert Leaves(args) == Leaves(init) + Leaves(last.args);
      } else {
        FollowsLast(args, a, last);
      }
    } else if Source(init, a) {
      var b :| Follows(init, a, b);
      assert Follows(args, a, b);
    } else {
      SourceGoesOn(last.args, a);
      if a !in Leaves(last.args) {
        var b :| Follows(last.args, a, b);
        assert Follows(args, a, b);
      }
    }
  }

  lemma {:induction false} NoDeadEnd(args: seq<Arg>, a: Arg)
    requires !EndsInEmptyGroup(args) && Source(args, a)
    ensures exists b :: Follows(args, a, b)
    decreases args
  {
    var init, last := Init(args), Last(args);
    if last.Opt? && Source(last.args, a) {
      SourceIsNode(last.args, a);
      NoDeadEnd(last.args, a);
      var b :| Follows(last.args, a, b);
      assert Follows(args, a, b);
    } else {
      if Source(init, a) {
        SourceGoesOn(init, a);
        SourceIsNode(init, a);
      }
      RootsAreNodes(init);
      if a in Leaves(init) {
        if last.Opt? {
          GroupsHaveRoots(last.args);
          assert Follows(args, a, Roots(last.args)[0]);
        } else {
          assert Follows(args, a, last);
        }
      } else {
        var b :| Follows(init, a, b);
        assert Follows(args, a, b);
      }
    }
  }

  lemma {:induction false} SourceIsNode(args: seq<Arg>, a: Arg)
    requires Source(args, a)
    ensures a in Nodes(args)
    decreases args
  {
    RootsAreNodes(Init(args));
    if Source(Init(args), a) {
      SourceIsNode(Init(args), a);
    } else if Last(args).Opt? && Source(Last(args).args, a) {
      SourceIsNode(Last(args).args, a);
    }
  }

  /** Any chain can be continued to one that cannot be extended. */
  lemma {:induction false} Continue(args: seq<Arg>, p: Path) returns (q: Path)
    requires Distinct(Nodes(args)) && !EndsInEmptyGroup(args)
    requires p != [] && Last(p) in Nodes(args) && Chain(args, p)
    ensures p <= q && Chain(args, q) && !Source(args, Last(q))
    decreases |Nodes(args)| - IndexOf(Nodes(args), Last(p))
  {
    q := p;
    if Source(args, Last(p)) {
      NoDeadEnd(args, Last(p));
      var b :| Follows(args, Last(p), b);
      FollowsForward(args, Last(p), b);
      q := Continue(args, p + [b]);
    }
  }

  lemma {:induction false} FullExpansion(args: seq<Arg>)
    ensures Expands(args, Nodes(args))
    decreases args
  {
    if args != [] {
      FullExpansion(Init(args));
      var p, k := Nodes(args), |Nodes(Init(args))|;
      assert p[..k] == Nodes(Init(args));
      if Last(args).Opt? {
        FullExpansion(Last(args).args);
        assert p[k..] == Nodes(Last(args).args);
      } else {
        assert Init(p) == p[..k];
      }
    }
  }

  lemma {:induction false} EmptyGroupConnectsAll(args: seq<Arg>, n: Arg)
    requires EndsInEmptyGroup(args) && n in Nodes(args)
    ensures Source(args, n)
    decreases args
  {
    if n in Nodes(Init(args)) {
      if !Source(Init(args), n) {
        UnconnectedIsLeaf(Init(args), n);
      }
    } else {
      EmptyGroupConnectsAll(Last(args).args, n);
    }
  }

  ghost predicate PrefixOfSome(q: Path, paths: seq<Path>) {
    exists p :: p in paths && q <= p
  }

  lemma ExpansionIsPrefix(args: seq<Arg>, q: Path)
    requires IsCommand(args) && !EndsInEmptyGroup(args) && Expands(args, q)
    ensures PrefixOfSome(q, Enumerated(args))
  {
    ExpansionIsRoute(args, q);
    StartsWithName(args);
    assert args[0] in args;
    RootsAreNodes(args);
    var p := Continue(args, q);
    EnumeratedAre(args, p);
  }

  /** An empty optional group at the end leaves no node to end a path with. */
  lemma NothingEnumerated(args: seq<Arg>)
    requires IsCommand(args) && EndsInEmptyGroup(args)
    ensures Enumerated(args) == []
  {
    var paths := Enumerated(args);
    assert paths == [] || paths[0] in paths;
    forall p
      ensures p !in Enumerated(args)
    {
      EnumeratedAre(args, p);
      if p != [] && p[0] == args[0] && Chain(args, p) {
        StartsWithName(args);
        if |p| > 1 {
          FollowsNodes(args, p[|p| - 2], p[|p| - 1]);
        }
        EmptyGroupConnectsAll(args, Last(p));
      }
    }
  }

  /**
   The graph is exact. Every enumerated path is an expansion of the argument list; every
   expansion starts some enumerated path, unless the list ends in an empty optional group:
   then nothing is enumerated at all.
   */
  lemma GraphIsExact(args: seq<Arg>)
    requires IsCommand(args)
    ensures forall p :: p in Enumerated(args) ==> Expands(args, p)
    ensures (forall q :: Expands(args, q) ==> PrefixOfSome(q, Enumerated(args))) <==> !EndsInEmptyGroup(args)
    ensures EndsInEmptyGroup(args) <==> Enumerated(args) == []
  {
    FullExpansion(args);
    forall p | p in Enumerated(args)
      ensures Expands(args, p)
    {
      EnumeratedIsExpansion(args, p);
    }
    if EndsInEmptyGroup(args) {
      NothingEnumerated(args);
      assert !PrefixOfSome(Nodes(args), Enumerated(args));
    } else {
      forall q | Expands(args, q)
        ensures PrefixOfSome(q, Enumerated(args))
      {
        ExpansionIsPrefix(args, q);
      }
      assert PrefixOfSome(Nodes(args), Enumerated(args));
    }
  }

  /** An expansion no other expansion continues. */
  ghost predicate Maximal(args: seq<Arg>, p: Path) {
    Expands(args, p) && forall q :: Expands(args, q) && p <= q ==> q == p
  }

  lemma FollowsMakesSource(args: seq<Arg>, a: Arg, b: Arg)
    requires Follows(args, a, b)
    ensures Source(args, a)
  {
    AddedEdges(map[], args, a);
    assert HasEdge(EdgesOf(args), a, b);
  }

  lemma EnumeratedIsMaximal(args: seq<Arg>, p: Path)
    requires IsCommand(args) && p in Enumerated(args)
    ensures Maximal(args, p)
  {
    EnumeratedIsExpansion(args, p);
    EnumeratedAre(args, p);
    forall q | Expands(args, q) && p <= q
      ensures q == p
    {
      ExpansionIsRoute(args, q);
      if |p| < |q| {
        assert Follows(args, q[|p| - 1], q[|p|]);
        FollowsMakesSource(args, Last(p), q[|p|]);
      }
    }
  }

  lemma FullExpansionIsMaximal(args: seq<Arg>)
    requires IsCommand(args)
    ensures Maximal(args, Nodes(args))
  {
    var p := Nodes(args);
    FullExpansion(args);
    StartsWithName(args);
    IndexIs(p, |p| - 1);
    forall q | Expands(args, q) && p <= q
      ensures q == p
    {
      ExpansionIsRoute(args, q);
      if |p| < |q| {
        assert Follows(args, q[|p| - 1], q[|p|]);
        FollowsForward(args, Last(p), q[|p|]);
      }
    }
  }

  lemma MaximalIsEnumerated(args: seq<Arg>, p: Path)
    requires IsCommand(args) && !EndsInEmptyGroup(args) && Maximal(args, p)
    ensures p in Enumerated(args)
  {
    ExpansionIsPrefix(args, p);
    var q :| q in Enumerated(args) && p <= q;
    EnumeratedIsExpansion(args, q);
  }

  /** The enumerated paths are exactly the maximal expansions, unless the list ends in an empty group. */
  lemma EnumeratesMaximal(args: seq<Arg>)
    requires IsCommand(args)
    ensures (forall p :: p in Enumerated(args) <==> Maximal(args, p)) <==> !EndsInEmptyGroup(args)
  {
    if EndsInEmptyGroup(args) {
      NothingEnumerated(args);
      FullExpansionIsMaximal(args);
    } else {
      forall p
        ensures p in Enumerated(args) <==> Maximal(args, p)
      {
        if p in Enumerated(args) {
          EnumeratedIsMaximal(args, p);
        } else if Maximal(args, p) {
          MaximalIsEnumerated(args, p);
        }
      }
    }
  }
}

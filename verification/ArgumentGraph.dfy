/**
 The graph of allowed argument sequences, built in one pass over the argument list. Its walks
 from a root to a leaf are proved to be the expansions of that list.
 */
module ArgumentGraph {
  import opened Common
  import opened Arguments

  // ----- What one pass over the list computes -----

  predicate Nullable(args: seq<Arg>) {
    forall a :: a in args ==> a.Opt?
  }

  function Roots(args: seq<Arg>): (r: seq<Arg>)
  {
    if args == [] then []
    else
      Roots(Init(args)) +
      if !Nullable(Init(args)) then []
      else
        match Last(args)
        case Opt(g) => Roots(g)
        case n => [n]
  }

  function Leaves(args: seq<Arg>): (r: seq<Arg>)
  {
    if args == [] then []
    else
      match Last(args)
      case Opt(g) => Leaves(Init(args)) + Leaves(g)
      case n => [n]
  }

  type Edges = map<Arg, seq<Arg>>

  /** Appends `dests` to the successors of every source, creating missing entries. */
  function Connect(e: Edges, srcs: seq<Arg>, dests: seq<Arg>): (r: Edges)
  {
    if srcs == [] then e
    else
      var e1 := Connect(e, Init(srcs), dests);
      var s := Last(srcs);
      e1[s := (if s in e1 then e1[s] else []) + dests]
  }

  function Added(e: Edges, args: seq<Arg>): (r: Edges)
    decreases args
  {
    if args == [] then e
    else
      var e1 := Added(e, Init(args));
      match Last(args)
      case Opt(g) => Connect(Added(e1, g), Leaves(Init(args)), Roots(g))
      case n => Connect(e1, Leaves(Init(args)), [n])
  }

  class ArgGraph {
    var edges: Edges
    var first: Arg

    constructor (args: seq<Arg>)
      requires Roots(args) != []
      ensures edges == Added(map[], args)
      ensures first == Roots(args)[0]
    {
      edges := map[];
      first := Keyword(0, "");
      new;
      var roots, leaves := AddArgs(args);
      first := roots[0];
    }

    method AddArgs(args: seq<Arg>) returns (roots: seq<Arg>, leaves: seq<Arg>)
      modifies this`edges
      ensures roots == Roots(args) && leaves == Leaves(args)
      ensures edges == Added(old(edges), args)
    {
      var rootsFound := false;
      roots, leaves := [], [];
      for i := 0 to |args|
        invariant rootsFound == !Nullable(args[..i])
        invariant roots == Roots(args[..i]) && leaves == Leaves(args[..i])
        invariant edges == Added(old(edges), args[..i])
      {
        assert Init(args[..i + 1]) == args[..i];
        var a := args[i];
        if a.Opt? {
          var r, l := AddArgs(a.args);
          AddEdges(leaves, r);
          if !rootsFound {
            roots := roots + r;
          }
          leaves := leaves + l;
        } else {
          AddEdges(leaves, [a]);
          if !rootsFound {
            roots := roots + [a];
          }
          leaves := [a];
          rootsFound := true;
          assert a in args[..i + 1];
        }
      }
      assert args[..|args|] == args;
    }

    method AddEdges(srcs: seq<Arg>, dests: seq<Arg>)
      modifies this`edges
      ensures edges == Connect(old(edges), srcs, dests)
    {
      for i := 0 to |srcs|
        invariant edges == Connect(old(edges), srcs[..i], dests)
      {
        assert Init(srcs[..i + 1]) == srcs[..i];
        var l := if srcs[i] in edges then edges[srcs[i]] else [];
        edges := edges[srcs[i] := l + dests];
      }
      assert srcs[..|srcs|] == srcs;
    }
  }

  // ----- The edges, as relations on the argument list -----

  ghost predicate HasEdge(e: Edges, a: Arg, b: Arg) {
    a in e && b in e[a]
  }

  /** `b` may come directly after `a`. */
  ghost predicate Follows(args: seq<Arg>, a: Arg, b: Arg) {
    args != [] &&
    (|| Follows(Init(args), a, b)
     || match Last(args)
        case Opt(g) => Follows(g, a, b) || (a in Leaves(Init(args)) && b in Roots(g))
        case n => a in Leaves(Init(args)) && b == n)
  }

  /** `a` got an entry in the edge table, perhaps one without successors. */
  ghost predicate Source(args: seq<Arg>, a: Arg) {
    args != [] &&
    (|| Source(Init(args), a)
     || a in Leaves(Init(args))
     || match Last(args)
        case Opt(g) => Source(g, a)
        case _ => false)
  }

  lemma {:induction false} ConnectEdges(e: Edges, srcs: seq<Arg>, dests: seq<Arg>, a: Arg)
    ensures a in Connect(e, srcs, dests) <==> a in e || a in srcs
    ensures forall b :: HasEdge(Connect(e, srcs, dests), a, b) <==> HasEdge(e, a, b) || (a in srcs && b in dests)
  {
    if srcs != [] {
      ConnectEdges(e, Init(srcs), dests, a);
      assert srcs == Init(srcs) + [Last(srcs)];
    }
  }

  lemma {:induction false} AddedEdges(e: Edges, args: seq<Arg>, a: Arg)
    ensures a in Added(e, args) <==> a in e || Source(args, a)
    ensures forall b :: HasEdge(Added(e, args), a, b) <==> HasEdge(e, a, b) || Follows(args, a, b)
    decreases args
  {
    if args != [] {
      var e1 := Added(e, Init(args));
      AddedEdges(e, Init(args), a);
      match Last(args)
      case Opt(g) =>
        AddedEdges(e1, g, a);
        ConnectEdges(Added(e1, g), Leaves(Init(args)), Roots(g), a);
      case n =>
        ConnectEdges(e1, Leaves(Init(args)), [n], a);
    }
  }

  // ----- Chains of edges are expansions, and the other way round -----

  ghost predicate Chain(args: seq<Arg>, p: Path) {
    forall i :: 0 <= i < |p| - 1 ==> Follows(args, p[i], p[i + 1])
  }

  ghost predicate Route(args: seq<Arg>, p: Path) {
    p != [] && p[0] in Roots(args) && Last(p) in Leaves(args) && Chain(args, p)
  }

  lemma {:induction false} RootsAreNodes(args: seq<Arg>)
    ensures forall n :: n in Roots(args) ==> n in Nodes(args)
    ensures forall n :: n in Leaves(args) ==> n in Nodes(args)
    decreases args
  {
    if args != [] {
      RootsAreNodes(Init(args));
      if Last(args).Opt? {
        RootsAreNodes(Last(args).args);
      }
    }
  }

  lemma {:induction false} FollowsNodes(args: seq<Arg>, a: Arg, b: Arg)
    requires Follows(args, a, b)
    ensures a in Nodes(args) && b in Nodes(args)
    decreases args
  {
    RootsAreNodes(Init(args));
    if Follows(Init(args), a, b) {
      FollowsNodes(Init(args), a, b);
    } else if Last(args).Opt? {
      RootsAreNodes(Last(args).args);
      if Follows(Last(args).args, a, b) {
        FollowsNodes(Last(args).args, a, b);
      }
    }
  }

  lemma {:induction false} NullableExpands(args: seq<Arg>)
    requires Nullable(args)
    ensures Expands(args, [])
  {
    if args != [] {
      assert Last(args) in args;
      NullableExpands(Init(args));
    }
  }

  /** Every non-empty expansion follows the edges from a root to a leaf. */
  lemma {:induction false} ExpansionIsRoute(args: seq<Arg>, p: Path)
    requires Expands(args, p)
    ensures p == [] ==> Nullable(args)
    ensures p != [] ==> Route(args, p)
    decreases args
  {
    if args != [] {
      var init := Init(args);
      assert args == init + [Last(args)];
      match Last(args)
      case Opt(g) =>
        if Expands(init, p) {
          ExpansionIsRoute(init, p);
        } else {
          var k :| 0 <= k <= |p| && Expands(init, p[..k]) && Expands(g, p[k..]);
          ExpansionIsRoute(init, p[..k]);
          ExpansionIsRoute(g, p[k..]);
          JoinRoutes(args, p, k);
        }
      case n =>
        ExpansionIsRoute(init, Init(p));
        assert n in args;
    }
  }

  lemma JoinRoutes(args: seq<Arg>, p: Path, k: nat)
    requires args != [] && Last(args).Opt? && k <= |p|
    requires if k == 0 then Nullable(Init(args)) else Route(Init(args), p[..k])
    requires if k == |p| then Nullable(Last(args).args) else Route(Last(args).args, p[k..])
    ensures p != [] ==> Route(args, p)
  {
  }

  /** The first index of `p` outside `s`. */
  lemma {:induction false} Leading(p: Path, s: seq<Arg>) returns (k: nat)
    ensures k <= |p| && forall i :: 0 <= i < k ==> p[i] in s
    ensures k < |p| ==> p[k] !in s
  {
    if p == [] || p[0] !in s {
      k := 0;
    } else {
      k := Leading(p[1..], s);
      k := k + 1;
    }
  }

  lemma DistinctParts<T>(a: seq<T>, b: seq<T>)
    requires Distinct(a + b)
    ensures Distinct(a) && Distinct(b)
    ensures forall x :: x in a ==> x !in b
  {
    var s := a + b;
    assert forall i :: 0 <= i < |a| ==> a[i] == s[i];
    assert forall i :: 0 <= i < |b| ==> b[i] == s[|a| + i];
  }

  /** Where an edge of a list lies: before its last argument, across to it, or within it. */
  lemma EdgeSide(args: seq<Arg>, a: Arg, b: Arg)
    requires Distinct(Nodes(args)) && Follows(args, a, b)
    ensures a in NodesOf(Last(args)) ==> a !in Nodes(Init(args)) && b !in Nodes(Init(args))
    ensures a in NodesOf(Last(args)) ==> Last(args).Opt? && Follows(Last(args).args, a, b) && b in NodesOf(Last(args))
    ensures a in Nodes(Init(args)) && b in Nodes(Init(args)) ==> Follows(Init(args), a, b)
    ensures a in Nodes(Init(args)) && b in NodesOf(Last(args)) ==> a in Leaves(Init(args)) && b in RootsOf(Last(args))
    ensures a in Nodes(Init(args)) || a in NodesOf(Last(args))
    ensures b in Nodes(Init(args)) || b in NodesOf(Last(args))
  {
    var init, last := Init(args), Last(args);
    DistinctParts(Nodes(init), NodesOf(last));
    RootsAreNodes(init);
    if Follows(init, a, b) {
      FollowsNodes(init, a, b);
    } else if last.Opt? {
      RootsAreNodes(last.args);
      if Follows(last.args, a, b) {
        FollowsNodes(last.args, a, b);
      }
    }
  }

  function RootsOf(a: Arg): (r: seq<Arg>) {
    if a.Opt? then Roots(a.args) else [a]
  }

  function GroupOf(a: Arg): (r: seq<Arg>) {
    if a.Opt? then a.args else []
  }

  /** Once a chain has left the nodes before the last argument, it stays inside that argument. */
  lemma {:induction false} StaysInside(args: seq<Arg>, p: Path, k: nat)
    requires Distinct(Nodes(args)) && Route(args, p)
    requires k < |p| && p[k] in NodesOf(Last(args))
    ensures forall i :: k <= i < |p| ==> p[i] in NodesOf(Last(args))
    decreases |p| - k
  {
    if k + 1 < |p| {
      EdgeSide(args, p[k], p[k + 1]);
      StaysInside(args, p, k + 1);
    }
  }

  /** A route is a part among the nodes before the last argument, then a part inside it. */
  ghost predicate SplitsAt(args: seq<Arg>, p: Path, k: nat)
    requires args != []
  {
    && k <= |p|
    && (forall i :: 0 <= i < k ==> p[i] in Nodes(Init(args)))
    && (forall i :: k <= i < |p| ==> p[i] in NodesOf(Last(args)))
  }

  lemma RouteSplits(args: seq<Arg>, p: Path) returns (k: nat)
    requires Distinct(Nodes(args)) && Route(args, p)
    ensures SplitsAt(args, p, k)
  {
    k := Leading(p, Nodes(Init(args)));
    if k < |p| {
      if k == 0 {
        RootsAreNodes(args);
      } else {
        EdgeSide(args, p[k - 1], p[k]);
      }
      StaysInside(args, p, k);
    }
  }

  lemma FrontRoute(args: seq<Arg>, p: Path, k: nat)
    requires Distinct(Nodes(args)) && Route(args, p) && SplitsAt(args, p, k)
    ensures k == 0 ==> Nullable(Init(args))
    ensures k != 0 ==> Route(Init(args), p[..k])
  {
    var init, front := Init(args), p[..k];
    DistinctParts(Nodes(init), NodesOf(Last(args)));
    RootsAreNodes(init);
    RootsAreNodes(GroupOf(Last(args)));
    forall i | 0 <= i < |front| - 1
      ensures Follows(init, front[i], front[i + 1])
    {
      EdgeSide(args, p[i], p[i + 1]);
    }
    if 0 < k < |p| {
      EdgeSide(args, p[k - 1], p[k]);
    }
  }

  lemma BackChain(args: seq<Arg>, p: Path, k: nat)
    requires Distinct(Nodes(args)) && Route(args, p) && SplitsAt(args, p, k)
    ensures Chain(GroupOf(Last(args)), p[k..])
    ensures 0 < k < |p| ==> p[k] in RootsOf(Last(args))
  {
    var g, back := GroupOf(Last(args)), p[k..];
    forall i | 0 <= i < |back| - 1
      ensures Follows(g, back[i], back[i + 1])
    {
      EdgeSide(args, p[k + i], p[k + i + 1]);
    }
    if 0 < k < |p| {
      EdgeSide(args, p[k - 1], p[k]);
    }
  }

  lemma BackRoute(args: seq<Arg>, p: Path, k: nat)
    requires Distinct(Nodes(args)) && Route(args, p) && SplitsAt(args, p, k)
    ensures k == |p| ==> Last(args).Opt?
    ensures k != |p| && Last(args).Opt? ==> Route(Last(args).args, p[k..])
    ensures k != |p| && !Last(args).Opt? ==> k == |p| - 1 && p[k] == Last(args)
  {
    if k == |p| {
      BackIsDropped(args, p);
    } else if Last(args).Opt? {
      BackGroup(args, p, k);
    } else if k + 1 < |p| {
      EdgeSide(args, p[k], p[k + 1]);
    }
  }

  lemma BackIsDropped(args: seq<Arg>, p: Path)
    requires Distinct(Nodes(args)) && Route(args, p) && SplitsAt(args, p, |p|)
    ensures Last(args).Opt?
  {
    DistinctParts(Nodes(Init(args)), NodesOf(Last(args)));
    assert Last(p) in Nodes(Init(args));
  }

  lemma BackGroup(args: seq<Arg>, p: Path, k: nat)
    requires Distinct(Nodes(args)) && Route(args, p) && SplitsAt(args, p, k) && k < |p| && Last(args).Opt?
    ensures Route(Last(args).args, p[k..])
  {
    BackChain(args, p, k);
    DistinctParts(Nodes(Init(args)), NodesOf(Last(args)));
    RootsAreNodes(Init(args));
    assert Last(p[k..]) == Last(p) && Last(p) in NodesOf(Last(args));
  }

  /** Following the edges from a root to a leaf spells an expansion, when nodes are distinct. */
  lemma {:induction false} RouteIsExpansion(args: seq<Arg>, p: Path)
    requires Distinct(Nodes(args)) && Route(args, p)
    ensures Expands(args, p)
    decreases args
  {
    var init, last := Init(args), Last(args);
    DistinctParts(Nodes(init), NodesOf(last));
    var k := RouteSplits(args, p);
    FrontRoute(args, p, k);
    BackRoute(args, p, k);
    if k == 0 {
      NullableExpands(init);
    } else {
      RouteIsExpansion(init, p[..k]);
    }
    if k == |p| {
      assert p[..k] == p;
    } else if last.Opt? {
      RouteIsExpansion(last.args, p[k..]);
    }
  }
}

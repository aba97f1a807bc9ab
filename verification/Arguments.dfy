/**
 Command arguments: the tree a command is declared with, and the plain sequences of
 arguments that tree stands for.

 An argument object is told apart from another by its identity, not by its text: `id`
 stands for that identity.
 */
module Arguments {
  import opened Common

  datatype Arg =
    | Keyword(id: nat, kw: string)
    | Param(id: nat)
    | Opt(args: seq<Arg>)
    | Rep(id: nat, args: seq<Arg>)

  type Path = seq<Arg>

  /** The members of an argument that become nodes of a graph, in the order they are written. */
  function Nodes(args: seq<Arg>): (r: seq<Arg>)
    ensures forall n :: n in r ==> !n.Opt?
  {
    if args == [] then []
    else
      match Last(args)
      case Opt(g) => Nodes(Init(args)) + Nodes(g)
      case n => Nodes(Init(args)) + [n]
  }

  function NodesOf(a: Arg): (r: seq<Arg>) {
    if a.Opt? then Nodes(a.args) else [a]
  }

  /**
   `p` is what remains of `args` when each optional group is either dropped or replaced by
   an expansion of its content. A repeated group stays one element.
   */
  ghost predicate Expands(args: seq<Arg>, p: Path) {
    if args == [] then p == []
    else
      match Last(args)
      case Opt(g) =>
        || Expands(Init(args), p)
        || exists k :: 0 <= k <= |p| && Expands(Init(args), p[..k]) && Expands(g, p[k..])
      case n => p != [] && Last(p) == n && Expands(Init(args), Init(p))
  }

  /** The i-th element when `args` is repeated for ever. */
  function Cycle(args: seq<Arg>, i: nat): (r: Arg)
    requires args != []
  {
    if i < |args| then args[i] else Cycle(args, i - |args|)
  }

  /**
   The i-th argument met when the elements of a path are chained: a repeated group cycles
   for ever over its content.
   */
  function Item(p: Path, i: nat): (r: seq<Arg>)
    ensures |r| <= 1
  {
    if p == [] then []
    else if p[0].Rep? then
      if p[0].args == [] then Item(p[1..], i) else [Cycle(p[0].args, i)]
    else if i == 0 then [p[0]]
    else Item(p[1..], i - 1)
  }

  predicate IsLeaf(a: Arg) {
    a.Keyword? || a.Param?
  }

  /** The documented use of lists: a repeated group is not empty and holds keywords and parameters. */
  predicate WellFormed(args: seq<Arg>) {
    forall a :: a in args ==> WellFormedArg(a)
  }

  predicate WellFormedArg(a: Arg) {
    match a
    case Opt(g) => WellFormed(g)
    case Rep(_, g) => g != [] && forall m :: m in g ==> IsLeaf(m)
    case _ => true
  }
}

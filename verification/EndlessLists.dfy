/**
 When matching ends. A repeated group is matched round after round while words are left; a round
 that takes no word is followed by the same round for ever.
 */
module EndlessLists {
  import opened Common
  import opened Arguments
  import opened ArgumentGraph
  import opened Matching
  import opened CommandLine
  import opened AcceptedLines

  // ----- Rounds that take a word -----

  /** Every repeated group has a member that is not an optional group. */
  predicate Progressive(args: seq<Arg>) {
    forall a :: a in args ==> ProgressiveArg(a)
  }

  predicate ProgressiveArg(a: Arg) {
    match a
    case Opt(g) => Progressive(g)
    case Rep(_, g) => !Nullable(g) && Progressive(g)
    case _ => true
  }

  lemma {:induction false} RoundTakesWord(conv: Converter, g: seq<Arg>, words: seq<string>)
    requires !Nullable(g) && Collate(conv, g, words).Ok?
    ensures |Collate(conv, g, words).rest| < |words|
  {
    assert g == Init(g) + [Last(g)];
    if !Nullable(Init(g)) {
      RoundTakesWord(conv, Init(g), words);
    } else {
      assert !Last(g).Opt?;
    }
  }

  /** Where every list has a member that is not optional, matching ends on every line. */
  lemma {:induction false} CollateEnds(conv: Converter, args: seq<Arg>, words: seq<string>)
    requires Progressive(args)
    ensures !Collate(conv, args, words).Endless?
    decreases args, 1
  {
    if args != [] {
      assert Last(args) in args && forall a :: a in Init(args) ==> a in args;
      CollateEnds(conv, Init(args), words);
      var m := Collate(conv, Init(args), words);
      if m.Ok? {
        MatchEnds(conv, Last(args), m.rest);
      }
    }
  }

  lemma {:induction false} MatchEnds(conv: Converter, a: Arg, words: seq<string>)
    requires ProgressiveArg(a)
    ensures !MatchArg(conv, a, words).Endless?
    decreases a, 1
  {
    match a
    case Opt(g) => CollateEnds(conv, g, words);
    case Rep(_, g) => RepeatEnds(conv, g, words);
    case _ =>
  }

  lemma {:induction false} RepeatEnds(conv: Converter, g: seq<Arg>, words: seq<string>)
    requires !Nullable(g) && Progressive(g)
    ensures !Repeat(conv, g, words).Endless?
    decreases g, 2, |words|
  {
    if words != [] {
      CollateEnds(conv, g, words);
      var m := Collate(conv, g, words);
      if m.Ok? {
        RoundTakesWord(conv, g, words);
        RepeatEnds(conv, g, m.rest);
      }
    }
  }

  // ----- Rounds that take none -----

  /** No keyword or parameter anywhere inside takes the word. */
  predicate Refuse(conv: Converter, args: seq<Arg>, w: string) {
    forall a :: a in args ==> RefusesWord(conv, a, w)
  }

  predicate RefusesWord(conv: Converter, a: Arg, w: string) {
    match a
    case Opt(g) => Refuse(conv, g, w)
    case Rep(_, g) => Refuse(conv, g, w)
    case _ => !Accepts(conv, a, w)
  }

  ghost predicate TakesNothing(m: Match, words: seq<string>) {
    m.Invalid? || m.Endless? || (m.Ok? && m.rest == words)
  }

  lemma {:induction false} RefusedTakesNothing(conv: Converter, args: seq<Arg>, words: seq<string>)
    requires words != [] && Refuse(conv, args, words[0])
    ensures TakesNothing(Collate(conv, args, words), words)
    ensures Nullable(args) ==> !Collate(conv, args, words).Invalid?
    decreases args, 1
  {
    if args != [] {
      assert Last(args) in args && forall a :: a in Init(args) ==> a in args;
      RefusedTakesNothing(conv, Init(args), words);
      ArgTakesNothing(conv, Last(args), words);
    }
  }

  lemma {:induction false} ArgTakesNothing(conv: Converter, a: Arg, words: seq<string>)
    requires words != [] && RefusesWord(conv, a, words[0])
    ensures TakesNothing(MatchArg(conv, a, words), words)
    ensures a.Opt? ==> !MatchArg(conv, a, words).Invalid?
    decreases a, 1
  {
    match a
    case Opt(g) => RefusedTakesNothing(conv, g, words);
    case Rep(_, g) => RefusedTakesNothing(conv, g, words);
    case _ =>
  }

  /** On a word no member takes, a list of nothing but optional groups goes round for ever. */
  lemma RefusedListIsEndless(conv: Converter, id: nat, g: seq<Arg>, words: seq<string>)
    requires Nullable(g) && words != [] && Refuse(conv, g, words[0])
    ensures MatchArg(conv, Rep(id, g), words) == Endless
  {
    RefusedTakesNothing(conv, g, words);
  }

  lemma {:induction false} OptionalNeverFails(conv: Converter, g: seq<Arg>, words: seq<string>)
    requires WellFormed(g) && Nullable(g)
    ensures Collate(conv, g, words).Ok?
  {
    if g != [] {
      assert Last(g) in g && forall a :: a in Init(g) ==> a in g;
      OptionalNeverFails(conv, Init(g), words);
    }
  }

  /** It is enough that none of the groups takes the word first. */
  lemma OptionalListIsEndless(conv: Converter, id: nat, g: seq<Arg>, words: seq<string>)
    requires WellFormed(g) && Nullable(g) && words != []
    ensures PassesOn(conv, g, [], words) ==> MatchArg(conv, Rep(id, g), words) == Endless
  {
    if PassesOn(conv, g, [], words) {
      OptionalNeverFails(conv, g, words);
      GroupIsSkipped(conv, g, words);
    }
  }

  // A word too long to be a keyword, for parameters that take the empty word alone.

  function Longest(args: seq<Arg>): (n: nat) {
    if args == [] then 0
    else
      var n, m := Longest(Init(args)), LongestOf(Last(args));
      if n < m then m else n
  }

  function LongestOf(a: Arg): (n: nat) {
    match a
    case Keyword(_, kw) => |kw|
    case Param(_) => 0
    case Opt(g) => Longest(g)
    case Rep(_, g) => Longest(g)
  }

  function EmptyOnly(): (conv: Converter) {
    (id: nat, w: string) => w == ""
  }

  lemma {:induction false} TooLong(args: seq<Arg>, w: string)
    requires |w| > Longest(args)
    ensures Refuse(EmptyOnly(), args, w)
    decreases args
  {
    if args != [] {
      var last := Last(args);
      TooLong(Init(args), w);
      assert args == Init(args) + [last];
      if !IsLeaf(last) {
        TooLong(last.args, w);
      }
      assert RefusesWord(EmptyOnly(), last, w);
    }
  }

  function LongWord(n: nat): (w: string)
    ensures |w| == n
  {
    seq(n, _ => 'x')
  }

  /**
   A list can go round for ever, on some words and for some converters, exactly if all its members
   are optional groups; provided lists inside it cannot.
   */
  lemma ListMayBeEndless(id: nat, g: seq<Arg>)
    requires Progressive(g)
    ensures (exists conv, words :: MatchArg(conv, Rep(id, g), words) == Endless) <==> Nullable(g)
  {
    if Nullable(g) {
      var word := LongWord(Longest(g) + 1);
      TooLong(g, word);
      RefusedListIsEndless(EmptyOnly(), id, g, [word]);
    } else {
      forall conv, words
        ensures MatchArg(conv, Rep(id, g), words) != Endless
      {
        MatchEnds(conv, Rep(id, g), words);
      }
    }
  }

  /** The smallest case: `[('a',)]` on the word "b". */
  lemma EndlessInput(conv: Converter)
    ensures MatchArg(conv, Rep(0, [Opt([Keyword(1, "a")])]), ["b"]) == Endless
  {
    var inner := [Keyword(1, "a")];
    assert Refuse(conv, inner, "b");
    assert RefusesWord(conv, Opt(inner), "b");
    RefusedListIsEndless(conv, 0, [Opt(inner)], ["b"]);
  }

  // ----- Whole commands -----

  /** The list at the end, if there is one, has nothing but optional groups. */
  predicate EndsInOptionalList(args: seq<Arg>) {
    Nodes(args) != [] && Last(Nodes(args)).Rep? && Nullable(Last(Nodes(args)).args)
  }

  predicate ProgressiveInside(args: seq<Arg>) {
    forall n :: n in Nodes(args) && n.Rep? ==> Progressive(n.args)
  }

  lemma {:induction false} ProgressiveNodes(args: seq<Arg>)
    requires forall n :: n in Nodes(args) ==> ProgressiveArg(n)
    ensures Progressive(args)
    decreases args
  {
    if args != [] {
      ProgressiveNodes(Init(args));
      assert args == Init(args) + [Last(args)];
      if Last(args).Opt? {
        ProgressiveNodes(Last(args).args);
      }
    }
  }

  /** A word for every node before the list: its keyword, or the empty word. */
  function WordsFor(ns: seq<Arg>): (words: seq<string>)
    ensures |words| == |ns|
  {
    seq(|ns|, i requires 0 <= i < |ns| => if ns[i].Keyword? then ns[i].kw else "")
  }

  lemma WordsFit(ns: seq<Arg>, rest: seq<string>)
    requires forall n :: n in ns ==> IsLeaf(n)
    ensures FitsNodes(EmptyOnly(), ns, WordsFor(ns) + rest)
  {
  }

  lemma ReachesLast(conv: Converter, args: seq<Arg>, words: seq<string>)
    requires args != [] && NodesOf(Last(args)) != [] && FitsNodes(conv, Init(Nodes(args)), words)
    ensures var m, front := Collate(conv, Init(args), words), Nodes(Init(args));
      && m.Ok? && |front| <= |words| && m.rest == words[|front|..]
      && FitsNodes(conv, Init(NodesOf(Last(args))), words[|front|..])
  {
    var front, back := Nodes(Init(args)), NodesOf(Last(args));
    assert Init(Nodes(args)) == front + Init(back);
    FitsNodesSplit(conv, front, Init(back), words);
    FullLineMatches(conv, Init(args), words);
  }

  /** With every group present, the words lead to the list, which never ends. */
  lemma {:induction false} ReachesList(conv: Converter, args: seq<Arg>, words: seq<string>)
    requires EndsInOptionalList(args) && FitsNodes(conv, Init(Nodes(args)), words)
    requires |words| == |Nodes(args)| && Refuse(conv, Last(Nodes(args)).args, Last(words))
    ensures Collate(conv, args, words) == Endless
    decreases args
  {
    var init, last := Init(args), Last(args);
    var front, back := Nodes(init), NodesOf(last);
    if back == [] {
      assert Nodes(args) == front;
      ReachesList(conv, init, words);
    } else {
      assert Last(Nodes(args)) == Last(back);
      ReachesLast(conv, args, words);
      var rest := words[|front|..];
      assert Last(rest) == Last(words);
      if last.Opt? {
        ReachesList(conv, last.args, rest);
      } else {
        RefusedListIsEndless(conv, last.id, last.args, rest);
      }
    }
  }

  /**
   A command whose list comes last, as documented, has a line on which it never ends, for some
   converters, exactly if that list has nothing but optional groups.
   */
  lemma CommandMayBeEndless(args: seq<Arg>)
    requires ListsLast(args) && ProgressiveInside(args)
    ensures (exists conv, words :: Call(conv, args, words) == Endless) <==> EndsInOptionalList(args)
  {
    if EndsInOptionalList(args) {
      var ns := Nodes(args);
      var long := LongWord(Longest(Last(ns).args) + 1);
      TooLong(Last(ns).args, long);
      forall n | n in Init(ns)
        ensures IsLeaf(n)
      {
        var i :| 0 <= i < |ns| - 1 && ns[i] == n;
        assert n in ns;
      }
      WordsFit(Init(ns), [long]);
      ReachesList(EmptyOnly(), args, WordsFor(Init(ns)) + [long]);
      assert Call(EmptyOnly(), args, WordsFor(Init(ns)) + [long]) == Endless;
    } else {
      forall n | n in Nodes(args)
        ensures ProgressiveArg(n)
      {
        var i :| 0 <= i < |Nodes(args)| && Nodes(args)[i] == n;
      }
      ProgressiveNodes(args);
      forall conv, words
        ensures Call(conv, args, words) != Endless
      {
        CollateEnds(conv, args, words);
      }
    }
  }
}

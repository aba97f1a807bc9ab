/**
 The lines a command accepts, read off its declaration. Greedy matching does not try a second way
 once an argument has taken a word, so it finds a line for sure only if no other argument could
 have taken one of its words.
 */
module AcceptedLines {
  import opened Common
  import opened Arguments
  import opened ArgumentGraph
  import opened ArgumentPaths
  import opened Matching
  import opened CommandLine

  // ----- What a line may give -----

  /** An expansion of `args`, where the last optional group used may stop short inside. */
  ghost predicate Suffices(args: seq<Arg>, p: Path)
    decreases args, 0
  {
    if args == [] then p == []
    else
      match Last(args)
      case Opt(g) => Suffices(Init(args), p) || exists k: nat :: EndsInGroup(args, p, k)
      case n => p != [] && Last(p) == n && Expands(Init(args), Init(p))
  }

  ghost predicate EndsInGroup(args: seq<Arg>, p: Path, k: nat)
    requires args != [] && Last(args).Opt?
    decreases args, 0, 0
  {
    && k < |p|
    && Expands(Init(args), p[..k])
    && (Suffices(Last(args).args, p[k..]) || StopsShort(Last(args).args, p[k..]))
  }

  /** `p` gives what comes before some keyword or parameter of `args`, but not that one. */
  ghost predicate StopsShort(args: seq<Arg>, p: Path)
    decreases args, 1
  {
    && args != []
    && (StopsShort(Init(args), p) || (IsLeaf(Last(args)) && Suffices(Init(args), p)))
  }

  /** The words label the nodes of `p` up to its end. */
  ghost predicate Covers(conv: Converter, p: Path, words: seq<string>) {
    Labels(conv, p, words) && |p| <= |words|
  }

  /** A list of arguments that repeats comes last, as documented. */
  ghost predicate ListsLast(args: seq<Arg>) {
    forall i :: 0 <= i < |Nodes(args)| - 1 ==> !Nodes(args)[i].Rep?
  }

  // ----- Whatever is accepted suffices -----

  lemma {:induction false} CollateGives(conv: Converter, args: seq<Arg>, words: seq<string>) returns (p: Path)
    requires WellFormed(args) && !Collate(conv, args, words).Invalid?
    ensures GivenBy(conv, args, p, Collate(conv, args, words), words)
    decreases args
  {
    p := [];
    if args != [] {
      var init, last := Init(args), Last(args);
      p := CollateGives(conv, init, words);
      var m := Collate(conv, init, words);
      if m.Ok? && m.rest != [] {
        CollateConserves(conv, init, words);
        var used := Used(m, words);
        assert words == used + m.rest;
        if last.Opt? {
          assert last in args;
          if !Collate(conv, last.args, m.rest).Invalid? {
            var q := CollateGives(conv, last.args, m.rest);
            GroupGives(conv, args, p, q, used, m.rest);
            p := p + q;
          }
        } else {
          NodeGives(conv, args, p, used, m.rest);
          p := p + [last];
        }
      }
    }
  }

  lemma NodeGives(conv: Converter, args: seq<Arg>, p: Path, used: seq<string>, words: seq<string>)
    requires args != [] && !Last(args).Opt? && WellFormedArg(Last(args))
    requires words != [] && Expands(Init(args), p) && Plain(p) && |p| == |used| && Labels(conv, p, used)
    requires !MatchArg(conv, Last(args), words).Invalid?
    ensures GivenBy(conv, args, p + [Last(args)], MatchArg(conv, Last(args), words), used + words)
  {
    var last := Last(args);
    var m := MatchArg(conv, last, words);
    var all := p + [last];
    var q := MatchSound(conv, last, words);
    LabelsConcat(conv, p, [last], used, Used(m, words));
    assert Init(all) == p;
    if m.Ok? && m.rest != [] {
      assert (used + words)[..|all|] == used + Used(m, words);
    }
  }

  ghost predicate GivenBy(conv: Converter, args: seq<Arg>, p: Path, m: Match, words: seq<string>)
    requires m.Ok? ==> |m.rest| <= |words|
  {
    match m
    case Ok(_, rest) =>
      if rest == [] then Suffices(args, p) && Covers(conv, p, words)
      else Expands(args, p) && Plain(p) && |p| == |words| - |rest| && Labels(conv, p, words[..|p|])
    case Stopped(_) => StopsShort(args, p) && Covers(conv, p, words)
    case _ => false
  }

  lemma GroupGives(conv: Converter, args: seq<Arg>, p: Path, q: Path, used: seq<string>, words: seq<string>)
    requires args != [] && Last(args).Opt? && WellFormed(Last(args).args)
    requires words != [] && Expands(Init(args), p) && Plain(p) && |p| == |used| && Labels(conv, p, used)
    requires GivenBy(conv, Last(args).args, q, Collate(conv, Last(args).args, words), words)
    ensures GivenBy(conv, args, p + q, MatchArg(conv, Last(args), words), used + words)
  {
    var m := Collate(conv, Last(args).args, words);
    if m.Ok? && m.rest != [] {
      ExpandsMore(args, p, q);
      LabelsStart(conv, p, q, used, words);
    } else {
      GroupGivesAll(conv, args, p, q, used, words);
    }
  }

  lemma GroupGivesAll(conv: Converter, args: seq<Arg>, p: Path, q: Path, used: seq<string>, words: seq<string>)
    requires args != [] && Last(args).Opt? && words != []
    requires Expands(Init(args), p) && Plain(p) && |p| == |used| && Labels(conv, p, used)
    requires Suffices(Last(args).args, q) || StopsShort(Last(args).args, q)
    requires Covers(conv, q, words)
    ensures Suffices(args, p + q) && Covers(conv, p + q, used + words)
  {
    LabelsConcat(conv, p, q, used, words);
    assert Item(q, 0) != [];
    EndsInside(args, p, q);
  }

  lemma LabelsStart(conv: Converter, p: Path, q: Path, used: seq<string>, words: seq<string>)
    requires Plain(p) && |p| == |used| && Labels(conv, p, used) && |q| <= |words| && Labels(conv, q, words[..|q|])
    ensures Labels(conv, p + q, (used + words)[..|p + q|])
  {
    LabelsConcat(conv, p, q, used, words[..|q|]);
    assert (used + words)[..|p + q|] == used + words[..|q|];
  }

  lemma EndsInside(args: seq<Arg>, p: Path, q: Path)
    requires args != [] && Last(args).Opt? && Expands(Init(args), p) && q != []
    requires Suffices(Last(args).args, q) || StopsShort(Last(args).args, q)
    ensures Suffices(args, p + q)
  {
    var all := p + q;
    assert all[..|p|] == p && all[|p|..] == q;
    assert EndsInGroup(args, all, |p|);
  }

  // ----- What suffices is accepted, unless another argument could take one of its words -----

  /** `n` can take `w` as its first word. */
  predicate Starts(conv: Converter, n: Arg, w: string) {
    if n.Rep? then n.args != [] && Accepts(conv, n.args[0], w) else Accepts(conv, n, w)
  }

  /** `b` may come directly after `p`, within `args`. */
  ghost predicate Next(args: seq<Arg>, p: Path, b: Arg) {
    if p == [] then b in Roots(args) else Follows(args, Last(p), b)
  }

  /** At no point of `p` could another argument have taken the word. */
  ghost predicate Uncontested(conv: Converter, args: seq<Arg>, p: Path, words: seq<string>) {
    forall i :: 0 <= i < |p| && i < |words| ==> !ContestedAt(conv, args, p, words, i)
  }

  ghost predicate ContestedAt(conv: Converter, args: seq<Arg>, p: Path, words: seq<string>, i: nat)
    requires i < |p| && i < |words|
  {
    exists b :: Next(args, p[..i], b) && b != p[i] && Starts(conv, b, words[i])
  }

  /** Within `args` nothing that may come after `p` takes the next word. */
  ghost predicate PassesOn(conv: Converter, args: seq<Arg>, p: Path, rest: seq<string>) {
    rest != [] ==> forall b :: Next(args, p, b) ==> !Starts(conv, b, rest[0])
  }

  /** A group none of whose arguments can come first for the next word takes no word. */
  lemma {:induction false} GroupIsSkipped(conv: Converter, g: seq<Arg>, words: seq<string>)
    requires WellFormed(g) && words != [] && PassesOn(conv, g, [], words)
    ensures var m := Collate(conv, g, words); m.Invalid? || (Nullable(g) && m.Ok? && m.rest == words)
    decreases g, 1
  {
    if g != [] {
      var init, last := Init(g), Last(g);
      assert last in g && g == init + [last];
      assert forall b :: Next(init, [], b) ==> Next(g, [], b);
      GroupIsSkipped(conv, init, words);
      if Collate(conv, init, words).Ok? {
        assert forall b :: b in RootsOf(last) ==> Next(g, [], b);
        ArgIsSkipped(conv, last, words);
      }
    }
  }

  lemma {:induction false} ArgIsSkipped(conv: Converter, a: Arg, words: seq<string>)
    requires WellFormedArg(a) && words != []
    requires forall b :: b in RootsOf(a) ==> !Starts(conv, b, words[0])
    ensures var m := MatchArg(conv, a, words); if a.Opt? then m.Ok? && m.rest == words && |m.out| == 1 else m.Invalid?
    decreases a, 2
  {
    match a
    case Opt(g) =>
      GroupIsSkipped(conv, g, words);
    case Rep(_, g) =>
      assert a in RootsOf(a);
      FirstRefuses(conv, g, words);
    case _ =>
      assert a in RootsOf(a);
  }

  lemma {:induction false} FirstRefuses(conv: Converter, g: seq<Arg>, words: seq<string>)
    requires g != [] && (forall a :: a in g ==> IsLeaf(a)) && WellFormed(g)
    requires words != [] && !Accepts(conv, g[0], words[0])
    ensures Collate(conv, g, words).Invalid?
  {
    if |g| > 1 {
      FirstRefuses(conv, Init(g), words);
    } else {
      assert Init(g) == [] && IsLeaf(Last(g));
    }
  }

  lemma {:induction false} ExpansionNodes(args: seq<Arg>, p: Path)
    requires Expands(args, p)
    ensures forall n :: n in p ==> n in Nodes(args)
    decreases args
  {
    if args != [] {
      var init := Init(args);
      match Last(args)
      case Opt(g) =>
        if Expands(init, p) {
          ExpansionNodes(init, p);
        } else {
          var k :| 0 <= k <= |p| && Expands(init, p[..k]) && Expands(g, p[k..]);
          ExpansionNodes(init, p[..k]);
          ExpansionNodes(g, p[k..]);
          assert p == p[..k] + p[k..];
        }
      case n =>
        ExpansionNodes(init, Init(p));
        assert p == Init(p) + [n];
    }
  }

  /** What could come after an expansion of the front does not take the word of the last argument. */
  lemma FrontPassesOn(conv: Converter, args: seq<Arg>, p: Path, q: Path, words: seq<string>)
    requires args != [] && Distinct(Nodes(args)) && Expands(Init(args), p)
    requires q != [] && q[0] in RootsOf(Last(args)) && |p| < |words| && Uncontested(conv, args, p + q, words)
    ensures PassesOn(conv, Init(args), p, words[|p|..])
  {
    var init, all := Init(args), p + q;
    DistinctParts(Nodes(init), NodesOf(Last(args)));
    RootsAreNodes(init);
    RootsAreNodes(GroupOf(Last(args)));
    assert all[..|p|] == p && all[|p|] == q[0];
    forall b | Next(init, p, b)
      ensures !Starts(conv, b, words[|p|])
    {
      if p != [] {
        FollowsNodes(init, Last(p), b);
      }
      assert Next(args, all[..|p|], b);
      assert !ContestedAt(conv, args, all, words, |p|);
    }
  }

  lemma FrontUncontested(conv: Converter, args: seq<Arg>, p: Path, q: Path, words: seq<string>)
    requires args != [] && Uncontested(conv, args, p + q, words)
    ensures Uncontested(conv, Init(args), p, words)
  {
    var all := p + q;
    forall i | 0 <= i < |p| && i < |words|
      ensures !ContestedAt(conv, Init(args), p, words, i)
    {
      assert all[..i] == p[..i] && all[i] == p[i];
      assert forall b :: Next(Init(args), p[..i], b) ==> Next(args, all[..i], b);
      assert !ContestedAt(conv, args, all, words, i);
    }
  }

  lemma GroupUncontested(conv: Converter, args: seq<Arg>, p: Path, q: Path, words: seq<string>)
    requires args != [] && Last(args).Opt? && Expands(Init(args), p) && |p| <= |words|
    requires Uncontested(conv, args, p + q, words)
    ensures Uncontested(conv, Last(args).args, q, words[|p|..])
  {
    var g, rest := Last(args).args, words[|p|..];
    forall i | 0 <= i < |q| && i < |rest|
      ensures !ContestedAt(conv, g, q, rest, i)
    {
      assert !ContestedAt(conv, args, p + q, words, |p| + i);
      ContestedInGroup(conv, args, p, q, words, i);
    }
  }

  lemma ContestedInGroup(conv: Converter, args: seq<Arg>, p: Path, q: Path, words: seq<string>, i: nat)
    requires args != [] && Last(args).Opt? && Expands(Init(args), p) && i < |q| && |p| + i < |words|
    ensures ContestedAt(conv, Last(args).args, q, words[|p|..], i) ==> ContestedAt(conv, args, p + q, words, |p| + i)
  {
    var all, g := p + q, Last(args).args;
    ExpansionIsRoute(Init(args), p);
    assert all[..|p| + i] == p + q[..i] && all[|p| + i] == q[i];
    assert forall b :: Next(g, q[..i], b) ==> Next(args, all[..|p| + i], b);
  }

  /** The start of `words` covers `p`, and the rest is for others. */
  ghost predicate CoversStart(conv: Converter, args: seq<Arg>, p: Path, words: seq<string>, n: nat) {
    && n <= |words|
    && Covers(conv, p, words[..n])
    && (n < |words| ==> Plain(p) && |p| == n && PassesOn(conv, args, p, words[n..]))
  }

  lemma CoversSplit(conv: Converter, p: Path, q: Path, words: seq<string>)
    requires Plain(p) && q != [] && Covers(conv, p + q, words)
    ensures |p| < |words| && Covers(conv, p, words[..|p|]) && Covers(conv, q, words[|p|..])
  {
    forall i | 0 <= i < |p|
      ensures Item(p, i) != [] && Accepts(conv, Item(p, i)[0], words[i])
    {
      PlainItem(p, q, i);
      assert Item(p + q, i) != [] && Accepts(conv, Item(p + q, i)[0], words[i]);
    }
    var rest := words[|p|..];
    forall i | 0 <= i < |rest|
      ensures Item(q, i) != [] && Accepts(conv, Item(q, i)[0], rest[i])
    {
      ItemAfter(p, q, i);
      assert rest[i] == words[|p| + i];
    }
  }

  lemma {:induction false} PlainItem(p: Path, q: Path, i: nat)
    requires Plain(p) && i < |p|
    ensures Item(p, i) == Item(p + q, i) == [p[i]]
  {
    assert (p + q)[1..] == p[1..] + q;
    if i > 0 {
      PlainItem(p[1..], q, i - 1);
    }
  }

  // A repeated group takes any number of words that fit it in turn.

  lemma {:induction false} LeavesTake(conv: Converter, g: seq<Arg>, words: seq<string>)
    requires (forall a :: a in g ==> IsLeaf(a)) && WellFormed(g)
    requires forall i :: 0 <= i < |words| && i < |g| ==> Accepts(conv, g[i], words[i])
    ensures var m := Collate(conv, g, words);
      if |g| <= |words| then m.Ok? && m.rest == words[|g|..] && |m.out| == |g| else m.Stopped? && |m.out| == |words|
  {
    if g != [] {
      assert Last(g) in g && g == Init(g) + [Last(g)];
      LeavesTake(conv, Init(g), words);
      if |g| <= |words| {
        LeafMatches(conv, Last(g), words[|g| - 1..]);
      }
    }
  }

  lemma {:induction false} RepeatTakes(conv: Converter, g: seq<Arg>, words: seq<string>)
    requires g != [] && (forall a :: a in g ==> IsLeaf(a))
    requires forall i :: 0 <= i < |words| ==> Accepts(conv, Cycle(g, i), words[i])
    ensures Repeat(conv, g, words).Ok? && |Repeat(conv, g, words).out| == |words|
    decreases |words|
  {
    if words != [] {
      assert WellFormed(g);
      assert forall i :: 0 <= i < |words| && i < |g| ==> Cycle(g, i) == g[i];
      LeavesTake(conv, g, words);
      if |g| <= |words| {
        var rest := words[|g|..];
        forall i | 0 <= i < |rest|
          ensures Accepts(conv, Cycle(g, i), rest[i])
        {
          assert Cycle(g, |g| + i) == Cycle(g, i) && rest[i] == words[|g| + i];
        }
        RepeatTakes(conv, g, rest);
      }
    }
  }

  lemma NodeTakes(conv: Converter, a: Arg, words: seq<string>, n: nat)
    requires WellFormedArg(a) && !a.Opt? && n <= |words| && Covers(conv, [a], words[..n])
    requires a.Rep? ==> n == |words|
    ensures var m := MatchArg(conv, a, words); m.Ok? && m.rest == words[n..] && |m.out| >= 1
  {
    var given := words[..n];
    if a.Rep? {
      assert given == words;
      forall i | 0 <= i < |words|
        ensures Accepts(conv, Cycle(a.args, i), words[i])
      {
        assert Item([a], i) == [Cycle(a.args, i)];
      }
      RepeatTakes(conv, a.args, words);
    } else {
      assert Item([a], 0) == [a];
      assert n > 1 ==> Item([a], 1) == [];
      assert given[0] == words[0];
    }
  }

  // ----- Matching along an expansion -----

  lemma FrontIsPlain(args: seq<Arg>, p: Path)
    requires args != [] && ListsLast(args) && NodesOf(Last(args)) != [] && Expands(Init(args), p)
    ensures Plain(p)
  {
    ExpansionNodes(Init(args), p);
    forall n | n in Nodes(Init(args))
      ensures !n.Rep?
    {
      var i :| 0 <= i < |Nodes(Init(args))| && Nodes(Init(args))[i] == n;
      assert Nodes(args)[i] == n;
    }
  }

  lemma ListsLastParts(args: seq<Arg>)
    requires args != [] && ListsLast(args)
    ensures ListsLast(Init(args)) && ListsLast(GroupOf(Last(args)))
  {
    var all, front, back := Nodes(args), Nodes(Init(args)), Nodes(GroupOf(Last(args)));
    forall i | 0 <= i < |front| - 1
      ensures !front[i].Rep?
    {
      assert all[i] == front[i];
    }
    forall i | 0 <= i < |back| - 1
      ensures !back[i].Rep?
    {
      assert all[|front| + i] == back[i];
    }
  }

  /** The words for the front of `args` cover what it gives; the word after them is for the last argument. */
  lemma FrontIsCovered(conv: Converter, args: seq<Arg>, p: Path, q: Path, words: seq<string>, n: nat)
    requires args != [] && WellFormed(args) && ListsLast(args) && Distinct(Nodes(args))
    requires Expands(Init(args), p) && q != [] && q[0] in RootsOf(Last(args))
    requires n <= |words| && Covers(conv, p + q, words[..n]) && Uncontested(conv, args, p + q, words)
    ensures |p| < n && Plain(p) && CoversStart(conv, Init(args), p, words, |p|)
    ensures Covers(conv, q, words[|p|..][..n - |p|])
  {
    RootsAreNodes(GroupOf(Last(args)));
    FrontIsPlain(args, p);
    CoversSplit(conv, p, q, words[..n]);
    assert words[..n][..|p|] == words[..|p|];
    assert words[..n][|p|..] == words[|p|..][..n - |p|];
    FrontPassesOn(conv, args, p, q, words);
  }

  lemma GroupIsCovered(conv: Converter, args: seq<Arg>, p: Path, k: nat, words: seq<string>, n: nat)
    requires args != [] && Last(args).Opt? && k < |p| && k < n && CoversStart(conv, args, p, words, n)
    requires Covers(conv, p[k..], words[k..][..n - k])
    ensures CoversStart(conv, Last(args).args, p[k..], words[k..], n - k)
  {
    if n < |words| {
      var g := Last(args).args;
      assert words[k..][n - k..] == words[n..];
      assert forall b :: Next(g, p[k..], b) ==> Next(args, p, b);
    }
  }

  lemma LastIsSkipped(conv: Converter, args: seq<Arg>, p: Path, words: seq<string>, n: nat)
    requires args != [] && Last(args).Opt? && WellFormed(args)
    requires Expands(Init(args), p) && GoesFor(conv, args, p, words, n)
    ensures GoesFor(conv, Init(args), p, words, n)
    ensures var m := MatchArg(conv, Last(args), words[n..]); m.Ok? && m.rest == words[n..] && |m.out| == 1
  {
    assert p + [] == p;
    FrontUncontested(conv, args, p, [], words);
    ExpansionIsRoute(Init(args), p);
    assert forall b :: Next(Init(args), p, b) ==> Next(args, p, b);
    assert Last(args) in args;
    if n < |words| {
      assert forall b :: b in RootsOf(Last(args)) ==> Next(args, p, b);
      ArgIsSkipped(conv, Last(args), words[n..]);
    }
  }

  /** The words from the start of `words` are for `p`, and nothing else could take them. */
  ghost predicate GoesFor(conv: Converter, args: seq<Arg>, p: Path, words: seq<string>, n: nat) {
    CoversStart(conv, args, p, words, n) && Uncontested(conv, args, p, words)
  }

  lemma DividesFront(conv: Converter, args: seq<Arg>, p: Path, q: Path, words: seq<string>, n: nat)
    requires args != [] && WellFormed(args) && ListsLast(args) && Distinct(Nodes(args))
    requires Expands(Init(args), p) && q != [] && q[0] in RootsOf(Last(args))
    requires GoesFor(conv, args, p + q, words, n)
    ensures |p| < n && GoesFor(conv, Init(args), p, words, |p|)
    ensures Covers(conv, q, words[|p|..][..n - |p|])
  {
    FrontIsCovered(conv, args, p, q, words, n);
    FrontUncontested(conv, args, p, q, words);
  }

  lemma DividesGroup(conv: Converter, args: seq<Arg>, p: Path, q: Path, words: seq<string>, n: nat)
    requires args != [] && Last(args).Opt? && Expands(Init(args), p) && q != [] && |p| < n
    requires GoesFor(conv, args, p + q, words, n) && Covers(conv, q, words[|p|..][..n - |p|])
    ensures GoesFor(conv, Last(args).args, q, words[|p|..], n - |p|)
  {
    GroupUncontested(conv, args, p, q, words);
    assert (p + q)[|p|..] == q;
    GroupIsCovered(conv, args, p + q, |p|, words, n);
  }

  lemma Divides(conv: Converter, args: seq<Arg>, p: Path, k: nat, words: seq<string>, n: nat)
    requires args != [] && WellFormed(args) && ListsLast(args) && Distinct(Nodes(args))
    requires k < |p| && Expands(Init(args), p[..k]) && p[k] in RootsOf(Last(args))
    requires GoesFor(conv, args, p, words, n)
    ensures k < n && GoesFor(conv, Init(args), p[..k], words, k)
    ensures Covers(conv, p[k..], words[k..][..n - k])
    ensures Last(args).Opt? ==> GoesFor(conv, Last(args).args, p[k..], words[k..], n - k)
    ensures words[k..][n - k..] == words[n..]
  {
    var front, back := p[..k], p[k..];
    assert p == front + back && |front| == k && back[0] == p[k];
    DividesFront(conv, args, front, back, words, n);
    if Last(args).Opt? {
      DividesGroup(conv, args, front, back, words, n);
    }
    CutTwice(words, k, n);
  }

  lemma CutTwice(words: seq<string>, k: nat, n: nat)
    requires k <= n <= |words|
    ensures words[k..][n - k..] == words[n..]
  {
  }

  lemma Parts(args: seq<Arg>)
    requires args != [] && WellFormed(args) && ListsLast(args) && Distinct(Nodes(args))
    ensures WellFormed(Init(args)) && ListsLast(Init(args)) && Distinct(Nodes(Init(args)))
    ensures WellFormedArg(Last(args))
    ensures var g := GroupOf(Last(args)); WellFormed(g) && ListsLast(g) && Distinct(Nodes(g))
  {
    DistinctParts(Nodes(Init(args)), NodesOf(Last(args)));
    ListsLastParts(args);
    assert Last(args) in args;
  }

  /** Greedy matching follows the expansion the words cover. */
  lemma {:induction false} CollateTakes(conv: Converter, args: seq<Arg>, p: Path, words: seq<string>, n: nat)
    requires WellFormed(args) && ListsLast(args) && Distinct(Nodes(args))
    requires Expands(args, p) && GoesFor(conv, args, p, words, n)
    ensures var m := Collate(conv, args, words); m.Ok? && m.rest == words[n..] && |m.out| >= |args|
    decreases args
  {
    if args == [] {
      assert n == 0 by {
        assert n > 0 ==> Item(p, 0) == [];
      }
    } else {
      var init, last := Init(args), Last(args);
      Parts(args);
      if last.Opt? && Expands(init, p) {
        LastIsSkipped(conv, args, p, words, n);
        CollateTakes(conv, init, p, words, n);
      } else {
        var k := LastPart(args, p);
        Divides(conv, args, p, k, words, n);
        CollateTakes(conv, init, p[..k], words, k);
        MatchTakes(conv, last, p[k..], words[k..], n - k);
      }
    }
  }

  lemma {:induction false} MatchTakes(conv: Converter, a: Arg, p: Path, words: seq<string>, n: nat)
    requires WellFormedArg(a) && ListsLast(GroupOf(a)) && Distinct(Nodes(GroupOf(a)))
    requires if a.Opt? then p != [] && Expands(a.args, p) && GoesFor(conv, a.args, p, words, n)
             else p == [a] && n <= |words| && Covers(conv, p, words[..n]) && (a.Rep? ==> n == |words|)
    ensures var m := MatchArg(conv, a, words); m.Ok? && m.rest == words[n..] && |m.out| >= 1
    decreases a
  {
    if a.Opt? {
      CollateTakes(conv, a.args, p, words, n);
    } else {
      NodeTakes(conv, a, words, n);
    }
  }

  lemma LastPart(args: seq<Arg>, p: Path) returns (k: nat)
    requires args != [] && Expands(args, p) && (Last(args).Opt? ==> !Expands(Init(args), p))
    ensures k < |p| && Expands(Init(args), p[..k]) && p[k] in RootsOf(Last(args))
    ensures if Last(args).Opt? then Expands(Last(args).args, p[k..]) else p[k..] == [Last(args)]
  {
    match Last(args)
    case Opt(g) =>
      k :| 0 <= k <= |p| && Expands(Init(args), p[..k]) && Expands(g, p[k..]);
      assert p[..|p|] == p;
      ExpansionIsRoute(g, p[k..]);
    case _ =>
      k := |p| - 1;
  }

  // ----- Exactly the sufficient lines -----

  lemma {:induction false} SufficientIsStart(args: seq<Arg>, p: Path) returns (e: Path)
    requires Suffices(args, p) || StopsShort(args, p)
    ensures Expands(args, e) && p <= e
    decreases args
  {
    e := p;
    if args != [] {
      var init, last := Init(args), Last(args);
      if Suffices(init, p) || StopsShort(init, p) {
        e := SufficientIsStart(init, p);
        FullExpansion(GroupOf(last));
        ExpandsMore(args, e, NodesOf(last));
        e := e + NodesOf(last);
      } else if last.Opt? {
        var k := GroupStart(args, p);
        var rest := SufficientIsStart(last.args, p[k..]);
        ExpandsMore(args, p[..k], rest);
        e := p[..k] + rest;
        PrefixJoins(p, k, rest);
      }
    }
  }

  lemma GroupStart(args: seq<Arg>, p: Path) returns (k: nat)
    requires args != [] && Last(args).Opt? && Suffices(args, p) && !Suffices(Init(args), p)
    ensures EndsInGroup(args, p, k)
  {
    k :| EndsInGroup(args, p, k);
  }

  lemma PrefixJoins(p: Path, k: nat, rest: Path)
    requires k <= |p| && p[k..] <= rest
    ensures p <= p[..k] + rest
  {
    assert p == p[..k] + p[k..];
  }

  lemma {:induction false} ExpansionSuffices(args: seq<Arg>, p: Path)
    requires Expands(args, p)
    ensures Suffices(args, p)
    decreases args
  {
    if args != [] && Last(args).Opt? {
      if Expands(Init(args), p) {
        ExpansionSuffices(Init(args), p);
      } else {
        var k := LastPart(args, p);
        ExpansionSuffices(Last(args).args, p[k..]);
        assert EndsInGroup(args, p, k);
      }
    }
  }

  /** Greedy matching uses up the words that cover what suffices, and stops where they stop short. */
  lemma {:induction false} CollateReaches(conv: Converter, args: seq<Arg>, p: Path, words: seq<string>)
    requires WellFormed(args) && ListsLast(args) && Distinct(Nodes(args))
    requires GoesFor(conv, args, p, words, |words|)
    ensures Suffices(args, p) ==>
      var m := Collate(conv, args, words); m.Ok? && m.rest == [] && |m.out| >= |args|
    ensures StopsShort(args, p) ==> Collate(conv, args, words).Stopped?
    decreases args
  {
    if Expands(args, p) {
      CollateTakes(conv, args, p, words, |words|);
    }
    if args != [] {
      var init, last := Init(args), Last(args);
      Parts(args);
      assert p + [] == p;
      FrontUncontested(conv, args, p, [], words);
      CollateReaches(conv, init, p, words);
      if last.Opt? && Suffices(args, p) && !Suffices(init, p) {
        var k := GroupPart(args, p);
        Divides(conv, args, p, k, words, |words|);
        CollateTakes(conv, init, p[..k], words, k);
        CollateReaches(conv, last.args, p[k..], words[k..]);
      }
    }
  }

  lemma GroupPart(args: seq<Arg>, p: Path) returns (k: nat)
    requires args != [] && Last(args).Opt? && Suffices(args, p) && !Suffices(Init(args), p)
    ensures EndsInGroup(args, p, k) && p[k] in RootsOf(Last(args))
  {
    k :| EndsInGroup(args, p, k);
    GroupStarts(Last(args).args, p[k..]);
  }

  lemma GroupStarts(g: seq<Arg>, p: Path)
    requires p != [] && (Suffices(g, p) || StopsShort(g, p))
    ensures p[0] in Roots(g)
  {
    var e := SufficientIsStart(g, p);
    ExpansionIsRoute(g, e);
    assert p[0] == e[0];
  }

  /** Without lists every argument met hands on one value. */
  lemma {:induction false} ValuesPerArgument(conv: Converter, args: seq<Arg>, words: seq<string>)
    requires WellFormed(args) && forall a :: a in args ==> !a.Rep?
    ensures var m := Collate(conv, args, words); m.Ok? ==> |m.out| == |args|
  {
    if args != [] {
      assert Last(args) in args && forall a :: a in Init(args) ==> a in args;
      ValuesPerArgument(conv, Init(args), words);
    }
  }

  lemma {:induction false} StoppedIsShort(conv: Converter, args: seq<Arg>, words: seq<string>)
    requires WellFormed(args) && ListsLast(args) && Collate(conv, args, words).Stopped?
    ensures |Collate(conv, args, words).out| < |args|
  {
    var init, last := Init(args), Last(args);
    ListsLastParts(args);
    assert last in args;
    if Collate(conv, init, words).Stopped? {
      StoppedIsShort(conv, init, words);
    } else {
      FullExpansion(init);
      FrontIsPlain(args, Nodes(init));
      TopLevelNodes(init);
      ValuesPerArgument(conv, init, words);
    }
  }

  lemma {:induction false} TopLevelNodes(args: seq<Arg>)
    ensures forall a :: a in args && !a.Opt? ==> a in Nodes(args)
  {
    if args != [] {
      TopLevelNodes(Init(args));
      assert args == Init(args) + [Last(args)];
    }
  }

  /** Every accepted line gives what suffices. */
  lemma AcceptedSuffices(conv: Converter, args: seq<Arg>, words: seq<string>) returns (p: Path)
    requires WellFormed(args) && ListsLast(args) && Accepted(conv, args, words)
    ensures Suffices(args, p) && Covers(conv, p, words)
  {
    if Collate(conv, args, words).Stopped? {
      StoppedIsShort(conv, args, words);
    }
    p := CollateGives(conv, args, words);
  }

  /** A line that gives what suffices is accepted if no other argument could take one of its words. */
  lemma UncontestedIsAccepted(conv: Converter, args: seq<Arg>, p: Path, words: seq<string>)
    requires IsCommand(args) && WellFormed(args) && ListsLast(args)
    requires Suffices(args, p) && Covers(conv, p, words) && Uncontested(conv, args, p, words)
    ensures Accepted(conv, args, words)
  {
    assert words[..|words|] == words;
    CollateReaches(conv, args, p, words);
  }

  // ----- Declarations that leave no choice -----

  ghost predicate Compete(conv: Converter, b: Arg, c: Arg) {
    b != c && exists w :: Starts(conv, b, w) && Starts(conv, c, w)
  }

  /** No two arguments that may come after the same one can take the same word. */
  ghost predicate Deterministic(conv: Converter, args: seq<Arg>) {
    forall a, b, c :: Follows(args, a, b) && Follows(args, a, c) ==> !Compete(conv, b, c)
  }

  lemma {:induction false} NodesAreWellFormed(args: seq<Arg>)
    requires WellFormed(args)
    ensures forall n :: n in Nodes(args) ==> WellFormedArg(n)
    decreases args
  {
    if args != [] {
      NodesAreWellFormed(Init(args));
      assert Last(args) in args;
      if Last(args).Opt? {
        NodesAreWellFormed(Last(args).args);
      }
    }
  }

  lemma OnlyLastRepeats(args: seq<Arg>, e: Path, i: nat)
    requires WellFormed(args) && ListsLast(args) && Distinct(Nodes(args)) && Expands(args, e) && i < |e|
    ensures Plain(e[..i]) && WellFormedArg(e[i])
  {
    ExpansionIsRoute(args, e);
    ExpansionNodes(args, e);
    NodesAreWellFormed(args);
    forall j | 0 <= j < i
      ensures !e[j].Rep?
    {
      FollowsForward(args, e[j], e[j + 1]);
    }
  }

  lemma WordStarts(conv: Converter, p: Path, words: seq<string>, i: nat)
    requires Covers(conv, p, words) && i < |p| && Plain(p[..i]) && WellFormedArg(p[i])
    ensures Starts(conv, p[i], words[i])
  {
    assert p == p[..i] + p[i..];
    ItemAfter(p[..i], p[i..], 0);
    assert Item(p, i) != [] && Accepts(conv, Item(p, i)[0], words[i]);
  }

  lemma DeterministicIsUncontested(conv: Converter, args: seq<Arg>, p: Path, words: seq<string>)
    requires IsCommand(args) && WellFormed(args) && ListsLast(args) && Deterministic(conv, args)
    requires Suffices(args, p) && Covers(conv, p, words)
    ensures Uncontested(conv, args, p, words)
  {
    var e := SufficientIsStart(args, p);
    ExpansionIsRoute(args, e);
    StartsWithName(args);
    forall i | 0 < i < |p|
      ensures !ContestedAt(conv, args, p, words, i)
    {
      assert p[..i] == e[..i] && p[i] == e[i];
      OnlyLastRepeats(args, e, i);
      WordStarts(conv, p, words, i);
      assert Follows(args, e[i - 1], e[i]);
      assert forall b :: Follows(args, e[i - 1], b) ==> !Compete(conv, b, e[i]);
    }
  }

  /** For such a declaration a line is accepted exactly if it gives what suffices. */
  lemma AcceptsSufficientLines(conv: Converter, args: seq<Arg>, words: seq<string>)
    requires IsCommand(args) && WellFormed(args) && ListsLast(args) && Deterministic(conv, args)
    ensures Accepted(conv, args, words) <==> exists p :: Suffices(args, p) && Covers(conv, p, words)
  {
    if Accepted(conv, args, words) {
      var p := AcceptedSuffices(conv, args, words);
    }
    forall p | Suffices(args, p) && Covers(conv, p, words)
      ensures Accepted(conv, args, words)
    {
      DeterministicIsUncontested(conv, args, p, words);
      UncontestedIsAccepted(conv, args, p, words);
    }
  }

  /** In particular every line that labels a whole enumerated path is. */
  lemma PathsAreAccepted(conv: Converter, args: seq<Arg>, p: Path, words: seq<string>)
    requires IsCommand(args) && WellFormed(args) && ListsLast(args) && Deterministic(conv, args)
    requires (p in Enumerated(args) || Expands(args, p)) && Covers(conv, p, words)
    ensures Accepted(conv, args, words)
  {
    GraphIsExact(args);
    ExpansionSuffices(args, p);
    AcceptsSufficientLines(conv, args, words);
  }

  /** Competition can lose a line: an optional keyword takes the word a parameter needed. */
  lemma GreedyMissesPath(conv: Converter)
    requires conv(2, "bar")
    ensures var args := [Keyword(0, "foo"), Opt([Keyword(1, "bar")]), Param(2)];
      var p := [Keyword(0, "foo"), Param(2)];
      && IsCommand(args) && WellFormed(args)
      && ListsLast(args) && !Deterministic(conv, args)
      && p in Enumerated(args)
      && Covers(conv, p, ["foo", "bar"]) && !Accepted(conv, args, ["foo", "bar"])
  {
    SkippingPath(Keyword(0, "foo"), Keyword(1, "bar"), Param(2));
    SkippingLabels(conv);
    GreedyTakesKeyword(conv);
    RefusedIsContested(conv, [Keyword(0, "foo"), Opt([Keyword(1, "bar")]), Param(2)],
      [Keyword(0, "foo"), Param(2)], ["foo", "bar"]);
  }

  lemma RefusedIsContested(conv: Converter, args: seq<Arg>, p: Path, words: seq<string>)
    requires IsCommand(args) && WellFormed(args) && ListsLast(args) && p in Enumerated(args)
    requires Covers(conv, p, words) && !Accepted(conv, args, words)
    ensures !Deterministic(conv, args) && !Uncontested(conv, args, p, words)
  {
    EnumeratedIsExpansion(args, p);
    ExpansionSuffices(args, p);
    if Uncontested(conv, args, p, words) {
      UncontestedIsAccepted(conv, args, p, words);
    }
    if Deterministic(conv, args) {
      DeterministicIsUncontested(conv, args, p, words);
    }
  }

  lemma SkippingLabels(conv: Converter)
    requires conv(2, "bar")
    ensures Labels(conv, [Keyword(0, "foo"), Param(2)], ["foo", "bar"])
  {
  }

  lemma SkippingPath(a: Arg, b: Arg, c: Arg)
    requires a.Keyword? && IsLeaf(b) && IsLeaf(c) && a != b && a != c && b != c
    ensures var args := [a, Opt([b]), c];
      IsCommand(args) && ListsLast(args) && [a, c] in Enumerated(args)
  {
    var args := [a, Opt([b]), c];
    OneGroup(a, b, c);
    assert Follows(args, a, c);
    EnumeratedAre(args, [a, c]);
  }

  lemma OneGroup(a: Arg, b: Arg, c: Arg)
    requires IsLeaf(a) && IsLeaf(b) && IsLeaf(c) && a != c && b != c
    ensures var args := [a, Opt([b]), c];
      Nodes(args) == [a, b, c] && Leaves(Init(args)) == [a, b] && !Source(args, c)
  {
    var args, two := [a, Opt([b]), c], [a, Opt([b])];
    assert Init(args) == two && Init(two) == [a] && Init([b]) == [] && Init([a]) == [];
    assert Nodes([b]) == [b] && Nodes([a]) == [a];
    assert Leaves([a]) == [a] && Leaves([b]) == [b] && Leaves([]) == [];
    assert Nodes(two) == [a, b] && Leaves(two) == [a, b];
    assert !Source([], c) && !Source([b], c) && !Source([a], c);
    assert !Source(two, c);
  }

  lemma GreedyTakesKeyword(conv: Converter)
    ensures var args := [Keyword(0, "foo"), Opt([Keyword(1, "bar")]), Param(2)];
      WellFormed(args) && !Accepted(conv, args, ["foo", "bar"])
  {
  }

  /** Competition need not lose it: of two equal optional keywords the first takes the word. */
  lemma ContestedYetAccepted(conv: Converter)
    ensures var foo, bar, baz := Keyword(0, "foo"), Keyword(1, "bar"), Keyword(2, "bar");
      var args, p, words := [foo, Opt([bar]), Opt([baz])], [foo, baz], ["foo", "bar"];
      && IsCommand(args) && WellFormed(args) && ListsLast(args)
      && Suffices(args, p) && Covers(conv, p, words)
      && !Uncontested(conv, args, p, words) && Accepted(conv, args, words)
  {
    var foo, bar, baz := Keyword(0, "foo"), Keyword(1, "bar"), Keyword(2, "bar");
    var args, p, words := [foo, Opt([bar]), Opt([baz])], [foo, baz], ["foo", "bar"];
    TwoGroupsContest(conv, foo, bar, baz, words);
    TwiceAccepts(conv);
    TwiceCovers(conv);
  }

  lemma TwoGroupsContest(conv: Converter, a: Arg, b: Arg, c: Arg, words: seq<string>)
    requires a.Keyword? && IsLeaf(b) && IsLeaf(c) && a != b && a != c && b != c
    requires |words| == 2 && Accepts(conv, b, words[1])
    ensures var args, p := [a, Opt([b]), Opt([c])], [a, c];
      IsCommand(args) && ListsLast(args) && Suffices(args, p) && !Uncontested(conv, args, p, words)
  {
    var args, p := [a, Opt([b]), Opt([c])], [a, c];
    TwoGroups(a, b, c);
    ExpansionSuffices(args, p);
    assert p[..1] == [a];
    assert Next(args, p[..1], b) && Starts(conv, b, words[1]);
    assert ContestedAt(conv, args, p, words, 1);
  }

  lemma TwiceAccepts(conv: Converter)
    ensures var args := [Keyword(0, "foo"), Opt([Keyword(1, "bar")]), Opt([Keyword(2, "bar")])];
      WellFormed(args) && Accepted(conv, args, ["foo", "bar"])
  {
  }

  lemma TwiceCovers(conv: Converter)
    ensures Covers(conv, [Keyword(0, "foo"), Keyword(2, "bar")], ["foo", "bar"])
  {
  }

  lemma TwoGroups(a: Arg, b: Arg, c: Arg)
    requires IsLeaf(a) && IsLeaf(b) && IsLeaf(c)
    ensures var args := [a, Opt([b]), Opt([c])];
      Nodes(args) == [a, b, c] && Follows(args, a, b) && Expands(args, [a, c])
  {
    var args, two := [a, Opt([b]), Opt([c])], [a, Opt([b])];
    assert Init(args) == two && Init(two) == [a] && Init([a]) == [] && Init([b]) == [] && Init([c]) == [];
    assert Nodes([a]) == [a] && Nodes([b]) == [b] && Nodes([c]) == [c] && Nodes(two) == [a, b];
    assert Leaves([a]) == [a] && Roots([b]) == [b];
    assert Follows(two, a, b);
    var p := [a, c];
    assert p[..1] == [a] && p[1..] == [c] && Init([a]) == [];
    assert Expands([], []) && Expands([a], [a]) && Expands([c], [c]) && Expands(two, [a]);
  }
}

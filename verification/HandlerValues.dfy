/**
 What a handler function receives. The shape of its arguments is read off the declaration: one
 value for a keyword or parameter, one group for an optional group, and the words of a list one by
 one, not as a list.
 */
module HandlerValues {
  import opened Common
  import opened Arguments
  import opened ArgumentGraph
  import opened ArgumentPaths
  import opened Matching
  import opened CommandLine
  import opened AcceptedLines

  // ----- The shape -----

  /** The value of a keyword or parameter that was given. */
  ghost predicate LeafValue(a: Arg, v: Value) {
    match a
    case Keyword(_, kw) => v == Word(kw)
    case Param(id) => v.Converted? && v.id == id
    case _ => false
  }

  /** The value of an argument inside an optional group that was not given. */
  ghost predicate IsDefault(a: Arg, v: Value)
    decreases a
  {
    match a
    case Keyword(_, _) => v == NoValue
    case Param(id) => v == Default(id)
    case Opt(g) => v.Group? && |v.values| == |g| && forall i :: 0 <= i < |g| ==> IsDefault(g[i], v.values[i])
    case Rep(_, _) => v == Group([])
  }

  /** The values handed on for one argument. A group holds its defaults exactly if it took no word. */
  ghost predicate ShapedArg(a: Arg, vs: seq<Value>)
    decreases a, 1
  {
    match a
    case Opt(g) =>
      && |vs| == 1 && vs[0].Group?
      && if Words(vs[0].values) == [] then IsDefault(a, vs[0]) else ShapedStart(g, vs[0].values)
    case Rep(_, g) =>
      vs != [] && g != [] && forall i :: 0 <= i < |vs| ==> LeafValue(Cycle(g, i), vs[i])
    case _ => |vs| == 1 && LeafValue(a, vs[0])
  }

  /** The values handed on for a whole list of arguments. */
  ghost predicate Shaped(args: seq<Arg>, vs: seq<Value>)
    decreases args, 0
  {
    if args == [] then vs == []
    else exists k :: 0 <= k <= |vs| && Shaped(Init(args), vs[..k]) && ShapedArg(Last(args), vs[k..])
  }

  /** The same for a list of arguments that may stop before a keyword or parameter. */
  ghost predicate ShapedStart(args: seq<Arg>, vs: seq<Value>)
    decreases args, 1
  {
    Shaped(args, vs) || ShapedShort(args, vs)
  }

  ghost predicate ShapedShort(args: seq<Arg>, vs: seq<Value>)
    decreases args, 0
  {
    args != [] && (ShapedShort(Init(args), vs) || (IsLeaf(Last(args)) && Shaped(Init(args), vs)))
  }

  // ----- Defaults -----

  lemma {:induction false} DefaultsAre(args: seq<Arg>)
    ensures |Defaults(args)| == |args| && forall i :: 0 <= i < |args| ==> IsDefault(args[i], Defaults(args)[i])
    decreases args
  {
    if args != [] {
      DefaultsAre(Init(args));
      if Last(args).Opt? {
        DefaultsAre(Last(args).args);
      }
    }
  }

  lemma DefaultIs(a: Arg)
    ensures IsDefault(a, DefaultOf(a))
  {
    if a.Opt? {
      DefaultsAre(a.args);
    }
  }

  // ----- Every match has the shape -----

  ghost predicate ShapedMatch(args: seq<Arg>, m: Match) {
    match m
    case Ok(out, _) => Shaped(args, out) && (Words(out) == [] ==> out == Defaults(args))
    case Stopped(out) => ShapedShort(args, out)
    case _ => true
  }

  lemma {:induction false} CollateShape(conv: Converter, args: seq<Arg>, words: seq<string>)
    requires WellFormed(args)
    ensures ShapedMatch(args, Collate(conv, args, words))
    decreases args, 1
  {
    if args != [] {
      assert Last(args) in args;
      CollateShape(conv, Init(args), words);
      var m := Collate(conv, Init(args), words);
      if m.Ok? {
        MatchShape(conv, Last(args), m.rest);
        ShapeGrows(args, m.out, MatchArg(conv, Last(args), m.rest));
      }
    }
  }

  ghost predicate ShapedArgMatch(a: Arg, m: Match) {
    match m
    case Ok(out, _) => ShapedArg(a, out) && (Words(out) == [] ==> out == [DefaultOf(a)])
    case Stopped(out) => IsLeaf(a) && out == []
    case _ => true
  }

  lemma ShapeGrows(args: seq<Arg>, out: seq<Value>, m: Match)
    requires args != [] && Shaped(Init(args), out) && (Words(out) == [] ==> out == Defaults(Init(args)))
    requires ShapedArgMatch(Last(args), m)
    ensures ShapedMatch(args, Append(out, m))
  {
    if m.Ok? {
      var all := out + m.out;
      assert all[..|out|] == out && all[|out|..] == m.out;
      WordsConcat(out, m.out);
    } else if m.Stopped? {
      assert out + m.out == out;
    }
  }

  lemma {:induction false} MatchShape(conv: Converter, a: Arg, words: seq<string>)
    requires WellFormedArg(a)
    ensures ShapedArgMatch(a, MatchArg(conv, a, words))
    decreases a, 1
  {
    var m := MatchArg(conv, a, words);
    match a
    case Opt(g) => GroupShape(conv, g, words);
    case Rep(_, g) =>
      if words != [] {
        RepeatShape(conv, g, words);
        RepeatConserves(conv, g, words);
      }
    case _ =>
      if m.Ok? {
        WordsOfOne(m.out[0]);
      }
  }

  lemma {:induction false} GroupShape(conv: Converter, g: seq<Arg>, words: seq<string>)
    requires WellFormed(g)
    ensures ShapedArgMatch(Opt(g), MatchArg(conv, Opt(g), words))
    decreases g, 2
  {
    DefaultShape(g);
    if words != [] {
      CollateShape(conv, g, words);
      CollateConserves(conv, g, words);
      var m := Collate(conv, g, words);
      if m.Ok? || m.Stopped? {
        FilledShape(g, m, words);
      }
    }
  }

  lemma DefaultShape(g: seq<Arg>)
    ensures ShapedArg(Opt(g), [DefaultOf(Opt(g))])
  {
    DefaultIs(Opt(g));
    DefaultsHoldNoWord(g);
  }

  lemma FilledShape(g: seq<Arg>, m: Match, words: seq<string>)
    requires (m.Ok? || m.Stopped?) && words != [] && ShapedMatch(g, m) && Conserves(m, words)
    ensures ShapedArg(Opt(g), [Group(m.out)])
    ensures Words([Group(m.out)]) == [] ==> [Group(m.out)] == [DefaultOf(Opt(g))]
  {
    WordsOfOne(Group(m.out));
    if Words(m.out) == [] {
      DefaultIs(Opt(g));
    }
  }

  /** A list hands on its words one by one, for its members in turn. */
  lemma {:induction false} RepeatShape(conv: Converter, g: seq<Arg>, words: seq<string>)
    requires g != [] && forall a :: a in g ==> IsLeaf(a)
    ensures var m := Repeat(conv, g, words);
      m.Ok? ==> |m.out| == |words| && forall i :: 0 <= i < |words| ==> LeafValue(Cycle(g, i), m.out[i])
    decreases |words|
  {
    if words != [] && Repeat(conv, g, words).Ok? {
      assert WellFormed(g);
      LeavesShape(conv, g, words);
      var m, all := Collate(conv, g, words), Repeat(conv, g, words).out;
      if m.Ok? {
        RepeatShape(conv, g, m.rest);
      }
      forall i | 0 <= i < |words|
        ensures |all| == |words| && LeafValue(Cycle(g, i), all[i])
      {
        if i < |g| {
          assert Cycle(g, i) == g[i] && all[i] == m.out[i];
        } else {
          assert Cycle(g, i) == Cycle(g, i - |g|) && all[i] == Repeat(conv, g, m.rest).out[i - |g|];
        }
      }
    }
  }

  lemma {:induction false} LeavesShape(conv: Converter, g: seq<Arg>, words: seq<string>)
    requires (forall a :: a in g ==> IsLeaf(a)) && WellFormed(g)
    ensures var m := Collate(conv, g, words);
      && (m.Ok? ==> |m.out| == |g| <= |words| && m.rest == words[|g|..])
      && (m.Stopped? ==> |m.out| == |words| < |g|)
      && (m.Ok? || m.Stopped? ==> forall i :: 0 <= i < |m.out| ==> LeafValue(g[i], m.out[i]))
  {
    if g != [] {
      var init, last := Init(g), Last(g);
      assert last in g && g == init + [last];
      LeavesShape(conv, init, words);
      OneMore(conv, init, last, words);
    }
  }

  /** The arguments of the handler function for an accepted line: in the shape of the declaration. */
  lemma HandlerGetsShape(conv: Converter, args: seq<Arg>, words: seq<string>)
    requires WellFormed(args) && ListsLast(args) && Accepted(conv, args, words)
    ensures Shaped(args, Call(conv, args, words).out)
    ensures Words(Call(conv, args, words).out) == words
  {
    CollateShape(conv, args, words);
    AcceptedConserves(conv, args, words);
    if Collate(conv, args, words).Stopped? {
      StoppedIsShort(conv, args, words);
    }
  }
}

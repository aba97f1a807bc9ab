/**
 Whether accepted lines give whole expansions. An optional group that was begun may stop short at
 the end of a line; its handler then gets fewer values than the group has members.
 */
module WholeExpansions {
  import opened Common
  import opened Arguments
  import opened ArgumentGraph
  import opened ArgumentPaths
  import opened Matching
  import opened CommandLine
  import opened AcceptedLines

  // ----- Declarations that let a group stop short -----

  /** An argument of the list is a keyword or parameter with a node before it. */
  predicate HasLateLeaf(g: seq<Arg>) {
    exists i :: 0 <= i < |g| && IsLeaf(g[i]) && Nodes(g[..i]) != []
  }

  /** The list ends in optional groups, and one of them has a keyword or parameter that can be missing. */
  predicate MayStopShort(args: seq<Arg>) {
    && args != []
    && Last(args).Opt?
    && (MayStopShort(Init(args)) || MayStopShort(Last(args).args) || HasLateLeaf(Last(args).args))
  }

  lemma {:induction false} StopsBeforeLeaf(g: seq<Arg>, p: Path)
    requires StopsShort(g, p) && p != []
    ensures HasLateLeaf(g)
  {
    var init := Init(g);
    if StopsShort(init, p) {
      StopsBeforeLeaf(init, p);
      var i :| 0 <= i < |init| && IsLeaf(init[i]) && Nodes(init[..i]) != [];
      assert g[i] == init[i] && g[..i] == init[..i];
    } else {
      var e := SufficientIsStart(init, p);
      ExpansionNodes(init, e);
      assert p[0] == e[0] && e[0] in e;
      assert g[..|g| - 1] == init;
    }
  }

  lemma {:induction false} SufficientExpands(args: seq<Arg>, p: Path)
    requires !MayStopShort(args) && Suffices(args, p)
    ensures Expands(args, p)
    decreases args
  {
    if args != [] && Last(args).Opt? {
      if Suffices(Init(args), p) {
        SufficientExpands(Init(args), p);
      } else {
        var k := GroupPart(args, p);
        var g, q := Last(args).args, p[k..];
        if StopsShort(g, q) {
          StopsBeforeLeaf(g, q);
        }
        SufficientExpands(g, q);
        ExpandsMore(args, p[..k], q);
        assert p == p[..k] + q;
      }
    }
  }

  // ----- Where one can stop short, something that is no expansion suffices -----

  lemma SufficientNodes(args: seq<Arg>, p: Path)
    requires Suffices(args, p) || StopsShort(args, p)
    ensures forall n :: n in p ==> n in Nodes(args)
  {
    var e := SufficientIsStart(args, p);
    ExpansionNodes(args, e);
  }

  lemma {:induction false} EmptyExpands(args: seq<Arg>)
    requires Suffices(args, [])
    ensures Expands(args, [])
  {
    if args != [] {
      EmptyExpands(Init(args));
    }
  }

  /** Where a sequence passes from one set of nodes to another, it does so at one place. */
  lemma OnePlace(p: Path, k: nat, j: nat, front: seq<Arg>, back: seq<Arg>)
    requires k <= |p| && j <= |p| && forall n :: n in front ==> n !in back
    requires (forall n :: n in p[..k] ==> n in front) && (forall n :: n in p[k..] ==> n in back)
    requires (forall n :: n in p[..j] ==> n in front) && (forall n :: n in p[j..] ==> n in back)
    ensures k == j
  {
    InFrontBefore(p, k, front, back);
    InFrontBefore(p, j, front, back);
    assert k < |p| ==> (k < j <==> p[k] in front);
    assert j < |p| ==> (j < k <==> p[j] in front);
  }

  lemma InFrontBefore(p: Path, k: nat, front: seq<Arg>, back: seq<Arg>)
    requires k <= |p| && forall n :: n in front ==> n !in back
    requires (forall n :: n in p[..k] ==> n in front) && (forall n :: n in p[k..] ==> n in back)
    ensures forall i :: 0 <= i < |p| ==> (i < k <==> p[i] in front)
  {
    forall i | 0 <= i < |p|
      ensures i < k <==> p[i] in front
    {
      if i < k {
        assert p[..k][i] == p[i];
      } else {
        assert p[k..][i - k] == p[i];
      }
    }
  }

  /** An expansion that passes from the front to the last group at `j` expands both there. */
  lemma ExpandsAtPlace(args: seq<Arg>, p: Path, j: nat)
    requires args != [] && Last(args).Opt? && Distinct(Nodes(args)) && Expands(args, p) && j <= |p|
    requires forall n :: n in p[..j] ==> n in Nodes(Init(args))
    requires forall n :: n in p[j..] ==> n in Nodes(Last(args).args)
    ensures Expands(Init(args), p[..j])
    ensures j < |p| ==> Expands(Last(args).args, p[j..])
  {
    var init, g := Init(args), Last(args).args;
    DistinctParts(Nodes(init), Nodes(g));
    var k := |p|;
    if Expands(init, p) {
      assert p[..k] == p;
    } else {
      k :| 0 <= k <= |p| && Expands(init, p[..k]) && Expands(g, p[k..]);
      ExpansionNodes(g, p[k..]);
    }
    ExpansionNodes(init, p[..k]);
    OnePlace(p, k, j, Nodes(init), Nodes(g));
  }

  lemma {:induction false} MandatoryIsThere(args: seq<Arg>, p: Path, a: Arg)
    requires Expands(args, p) && a in args && !a.Opt?
    ensures a in p
    decreases args
  {
    assert args == Init(args) + [Last(args)];
    if a != Last(args) {
      if Last(args).Opt? {
        if Expands(Init(args), p) {
          MandatoryIsThere(Init(args), p, a);
        } else {
          var k :| 0 <= k <= |p| && Expands(Init(args), p[..k]) && Expands(Last(args).args, p[k..]);
          MandatoryIsThere(Init(args), p[..k], a);
        }
      } else {
        MandatoryIsThere(Init(args), Init(p), a);
      }
    }
  }

  lemma {:induction false} StopsLater(g: seq<Arg>, i: nat, p: Path)
    requires i < |g| && IsLeaf(g[i]) && Suffices(g[..i], p)
    ensures StopsShort(g, p)
  {
    if i == |g| - 1 {
      assert Init(g) == g[..i];
    } else {
      assert Init(g)[..i] == g[..i];
      StopsLater(Init(g), i, p);
    }
  }

  lemma {:induction false} NodesInFront(g: seq<Arg>, i: nat)
    requires i < |g| && IsLeaf(g[i]) && Distinct(Nodes(g))
    ensures g[i] !in Nodes(g[..i]) && forall n :: n in Nodes(g[..i]) ==> n in Nodes(g)
  {
    DistinctParts(Nodes(Init(g)), NodesOf(Last(g)));
    if i == |g| - 1 {
      assert Init(g) == g[..i];
    } else {
      assert Init(g)[..i] == g[..i];
      NodesInFront(Init(g), i);
    }
  }

  /** A non-empty part of the group that stops before one of its keywords or parameters. */
  lemma ShortPart(g: seq<Arg>) returns (q: Path)
    requires HasLateLeaf(g) && Distinct(Nodes(g))
    ensures q != [] && StopsShort(g, q) && !Expands(g, q)
  {
    var i :| 0 <= i < |g| && IsLeaf(g[i]) && Nodes(g[..i]) != [];
    q := Nodes(g[..i]);
    FullExpansion(g[..i]);
    ExpansionSuffices(g[..i], q);
    StopsLater(g, i, q);
    NodesInFront(g, i);
    if Expands(g, q) {
      MandatoryIsThere(g, q, g[i]);
    }
  }

  lemma {:induction false} SufficientButShort(args: seq<Arg>) returns (p: Path)
    requires MayStopShort(args) && Distinct(Nodes(args))
    ensures Suffices(args, p) && !Expands(args, p)
    decreases args
  {
    var init, g := Init(args), Last(args).args;
    DistinctParts(Nodes(init), Nodes(g));
    if MayStopShort(init) {
      p := SufficientButShort(init);
      SufficientNodes(init, p);
      assert p[..|p|] == p && p[|p|..] == [];
      if Expands(args, p) {
        ExpandsAtPlace(args, p, |p|);
      }
    } else {
      var q;
      if MayStopShort(g) {
        q := SufficientButShort(g);
        if q == [] {
          EmptyExpands(g);
        }
      } else {
        q := ShortPart(g);
      }
      p := FrontAndPart(args, q);
    }
  }

  lemma FrontAndPart(args: seq<Arg>, q: Path) returns (p: Path)
    requires args != [] && Last(args).Opt? && Distinct(Nodes(args)) && q != []
    requires var g := Last(args).args; (Suffices(g, q) || StopsShort(g, q)) && !Expands(g, q)
    ensures Suffices(args, p) && !Expands(args, p)
  {
    var front := Nodes(Init(args));
    FullExpansion(Init(args));
    p := front + q;
    assert p[..|front|] == front && p[|front|..] == q;
    assert EndsInGroup(args, p, |front|);
    SufficientNodes(Last(args).args, q);
    if Expands(args, p) {
      ExpandsAtPlace(args, p, |front|);
    }
  }

  /** What suffices is always a whole expansion, exactly if no group at the end can stop short. */
  lemma SufficientIsWhole(args: seq<Arg>)
    requires Distinct(Nodes(args))
    ensures (forall p :: Suffices(args, p) ==> Expands(args, p)) <==> !MayStopShort(args)
  {
    if MayStopShort(args) {
      var p := SufficientButShort(args);
    } else {
      forall p | Suffices(args, p)
        ensures Expands(args, p)
      {
        SufficientExpands(args, p);
      }
    }
  }

  // ----- Lines -----

  /** For such declarations every accepted line covers a whole expansion, and without competition exactly those do. */
  lemma AcceptsWholeExpansions(conv: Converter, args: seq<Arg>, words: seq<string>)
    requires IsCommand(args) && WellFormed(args) && ListsLast(args) && !MayStopShort(args)
    ensures Accepted(conv, args, words) ==> exists p :: Expands(args, p) && Covers(conv, p, words)
    ensures Deterministic(conv, args) ==>
      (Accepted(conv, args, words) <==> exists p :: Expands(args, p) && Covers(conv, p, words))
  {
    if Accepted(conv, args, words) {
      var p := AcceptedSuffices(conv, args, words);
      SufficientExpands(args, p);
    }
    if Deterministic(conv, args) {
      forall p | Expands(args, p) && Covers(conv, p, words)
        ensures Accepted(conv, args, words)
      {
        PathsAreAccepted(conv, args, p, words);
      }
    }
  }

  // ----- Without competition a line has one reading -----

  lemma {:induction false} SameReading(conv: Converter, args: seq<Arg>, p: Path, q: Path, words: seq<string>, i: nat)
    requires IsCommand(args) && WellFormed(args) && ListsLast(args) && Deterministic(conv, args)
    requires Suffices(args, p) && Covers(conv, p, words) && Suffices(args, q) && Covers(conv, q, words)
    requires i < |p| && i < |q|
    ensures p[i] == q[i]
  {
    if i == 0 {
      NodeOfReading(conv, args, p, words, 0);
      NodeOfReading(conv, args, q, words, 0);
    } else {
      SameReading(conv, args, p, q, words, i - 1);
      NodeOfReading(conv, args, p, words, i);
      NodeOfReading(conv, args, q, words, i);
      assert !Compete(conv, p[i], q[i]);
    }
  }

  lemma NodeOfReading(conv: Converter, args: seq<Arg>, p: Path, words: seq<string>, i: nat)
    requires IsCommand(args) && WellFormed(args) && ListsLast(args)
    requires Suffices(args, p) && Covers(conv, p, words) && i < |p|
    ensures Plain(p[..i]) && Starts(conv, p[i], words[i])
    ensures if i == 0 then p[i] == args[0] else Follows(args, p[i - 1], p[i])
  {
    var e := SufficientIsStart(args, p);
    ExpansionIsRoute(args, e);
    StartsWithName(args);
    assert p[..i] == e[..i] && p[i] == e[i];
    OnlyLastRepeats(args, e, i);
    WordStarts(conv, p, words, i);
    if i > 0 {
      assert Follows(args, e[i - 1], e[i]);
    }
  }

  lemma {:induction false} PlainItemsEnd(p: Path, i: nat)
    requires Plain(p) && |p| <= i
    ensures Item(p, i) == []
  {
    if p != [] {
      PlainItemsEnd(p[1..], i - 1);
    }
  }

  lemma NoLonger(conv: Converter, args: seq<Arg>, p: Path, q: Path, words: seq<string>)
    requires IsCommand(args) && WellFormed(args) && ListsLast(args) && Deterministic(conv, args)
    requires Suffices(args, p) && Covers(conv, p, words) && Suffices(args, q) && Covers(conv, q, words)
    ensures |q| <= |p|
  {
    if |p| < |q| {
      forall i | 0 <= i < |p|
        ensures p[i] == q[i]
      {
        SameReading(conv, args, p, q, words, i);
      }
      NodeOfReading(conv, args, q, words, |p|);
      assert p == q[..|p|];
      PlainItemsEnd(p, |p|);
    }
  }

  /** For declarations without competition, a line can be read in one way at most. */
  lemma OneReading(conv: Converter, args: seq<Arg>, p: Path, q: Path, words: seq<string>)
    requires IsCommand(args) && WellFormed(args) && ListsLast(args) && Deterministic(conv, args)
    requires Suffices(args, p) && Covers(conv, p, words) && Suffices(args, q) && Covers(conv, q, words)
    ensures p == q
  {
    NoLonger(conv, args, p, q, words);
    NoLonger(conv, args, q, p, words);
    forall i | 0 <= i < |p|
      ensures p[i] == q[i]
    {
      SameReading(conv, args, p, q, words, i);
    }
  }

  // ----- Whether all accepted lines are whole -----

  ghost predicate IsWhole(conv: Converter, args: seq<Arg>, words: seq<string>) {
    exists p :: Expands(args, p) && Covers(conv, p, words)
  }

  /** Every keyword and parameter can be given. */
  ghost predicate CanBeGiven(conv: Converter, args: seq<Arg>) {
    forall n :: n in Nodes(args) ==> exists w :: Starts(conv, n, w)
  }

  lemma {:induction false} WordsToCover(conv: Converter, p: Path) returns (words: seq<string>)
    requires forall n :: n in p ==> WellFormedArg(n) && !n.Opt? && exists w :: Starts(conv, n, w)
    requires forall i :: 0 <= i < |p| - 1 ==> !p[i].Rep?
    ensures |words| == |p| && Covers(conv, p, words)
  {
    words := [];
    if p != [] {
      var front, last := Init(p), Last(p);
      assert last in p && forall n :: n in front ==> n in p;
      words := WordsToCover(conv, front);
      var w :| Starts(conv, last, w);
      assert Labels(conv, [last], [w]);
      LabelsConcat(conv, front, [last], words, [w]);
      assert p == front + [last];
      words := words + [w];
    }
  }

  lemma ShortLine(conv: Converter, args: seq<Arg>) returns (words: seq<string>)
    requires IsCommand(args) && WellFormed(args) && ListsLast(args) && Deterministic(conv, args)
    requires CanBeGiven(conv, args) && MayStopShort(args)
    ensures Accepted(conv, args, words) && !IsWhole(conv, args, words)
  {
    var p := SufficientButShort(args);
    var e := SufficientIsStart(args, p);
    SufficientNodes(args, p);
    NodesAreWellFormed(args);
    if p != [] {
      OnlyLastRepeats(args, e, |p| - 1);
      assert forall i :: 0 <= i < |p| - 1 ==> e[..|p| - 1][i] == p[i];
    }
    words := WordsToCover(conv, p);
    AcceptsSufficientLines(conv, args, words);
    if q :| Expands(args, q) && Covers(conv, q, words) {
      ExpansionSuffices(args, q);
      OneReading(conv, args, p, q, words);
    }
  }

  /**
   For declarations without competition whose arguments can all be given: every accepted line
   covers a whole expansion, exactly if no group at the end can stop short.
   */
  lemma LinesAreWhole(conv: Converter, args: seq<Arg>)
    requires IsCommand(args) && WellFormed(args) && ListsLast(args) && Deterministic(conv, args)
    requires CanBeGiven(conv, args)
    ensures (forall words :: Accepted(conv, args, words) ==> IsWhole(conv, args, words)) <==> !MayStopShort(args)
  {
    if MayStopShort(args) {
      var words := ShortLine(conv, args);
    } else {
      forall words | Accepted(conv, args, words)
        ensures IsWhole(conv, args, words)
      {
        AcceptsWholeExpansions(conv, args, words);
      }
    }
  }

  /** A keyword with its parameter missing: the group is handed on with one value instead of two. */
  lemma ShortGroupAccepted(conv: Converter)
    ensures var args := [Keyword(0, "foo"), Opt([Keyword(1, "bar"), Param(2)])];
      var m := Call(conv, args, ["foo", "bar"]);
      && IsCommand(args) && WellFormed(args) && ListsLast(args) && Deterministic(conv, args)
      && m == Ok([Word("foo"), Group([Word("bar")])], [])
      && !IsWhole(conv, args, ["foo", "bar"]) && MayStopShort(args)
  {
    var args := [Keyword(0, "foo"), Opt([Keyword(1, "bar"), Param(2)])];
    ShortGroupMatches(conv);
    InARow(conv, Keyword(0, "foo"), Keyword(1, "bar"), Param(2));
    forall p | Expands(args, p)
      ensures !Covers(conv, p, ["foo", "bar"])
    {
      GroupSizes(Keyword(0, "foo"), Keyword(1, "bar"), Param(2), p);
      if |p| == 1 {
        PlainItemsEnd(p, 1);
      }
    }
    var g := args[1].args;
    assert g[..1] == [Keyword(1, "bar")] && IsLeaf(g[1]);
    assert Nodes(g[..1]) == [Keyword(1, "bar")];
  }

  lemma InARow(conv: Converter, a: Arg, b: Arg, c: Arg)
    requires a.Keyword? && IsLeaf(b) && IsLeaf(c) && a != b && a != c && b != c
    ensures var args := [a, Opt([b, c])];
      IsCommand(args) && WellFormed(args) && ListsLast(args) && Deterministic(conv, args)
  {
    var args, g := [a, Opt([b, c])], [b, c];
    RowNodes(a, b, c);
    assert WellFormed(g);
    assert WellFormedArg(args[1]);
    forall x, y
      ensures Follows(args, x, y) ==> (x == a && y == b) || (x == b && y == c)
    {
      RowEdges(a, b, c, x, y);
    }
  }

  lemma RowNodes(a: Arg, b: Arg, c: Arg)
    requires IsLeaf(a) && IsLeaf(b) && IsLeaf(c)
    ensures Nodes([a, Opt([b, c])]) == [a, b, c]
  {
    assert Init([a, Opt([b, c])]) == [a] && Init([b, c]) == [b] && Init([b]) == [] && Init([a]) == [];
    assert Nodes([a]) == [a] && Nodes([b]) == [b] && Nodes([b, c]) == [b, c];
  }

  lemma RowEdges(a: Arg, b: Arg, c: Arg, x: Arg, y: Arg)
    requires IsLeaf(a) && IsLeaf(b) && IsLeaf(c)
    ensures Follows([a, Opt([b, c])], x, y) ==> (x == a && y == b) || (x == b && y == c)
  {
    var g := [b, c];
    assert Init([a, Opt(g)]) == [a] && Init(g) == [b] && Init([b]) == [] && Init([a]) == [];
    assert Leaves([a]) == [a] && Leaves([b]) == [b] && Leaves([]) == [];
    assert Roots([b]) == [b] && b in [b] && !Nullable([b]) && Roots(g) == [b];
    assert !Follows([], x, y) && !Follows([a], x, y) && !Follows([b], x, y);
    assert Follows(g, x, y) ==> x == b && y == c;
  }

  lemma ShortGroupMatches(conv: Converter)
    ensures var args := [Keyword(0, "foo"), Opt([Keyword(1, "bar"), Param(2)])];
      Call(conv, args, ["foo", "bar"]) == Ok([Word("foo"), Group([Word("bar")])], [])
  {
    var foo, g := Keyword(0, "foo"), [Keyword(1, "bar"), Param(2)];
    FirstKeyword(conv, foo, ["foo", "bar"]);
    KeywordThenParameter(conv, g[0], g[1], ["bar"]);
    assert ["foo", "bar"][1..] == ["bar"];
    assert Init([foo, Opt(g)]) == [foo];
    assert MatchArg(conv, Opt(g), ["bar"]) == Ok([Group([Word("bar")])], []);
  }

  lemma GroupSizes(a: Arg, b: Arg, c: Arg, p: Path)
    requires IsLeaf(a) && IsLeaf(b) && IsLeaf(c) && b != c && Expands([a, Opt([b, c])], p)
    ensures p == [a] || |p| == 3
  {
    var args := [a, Opt([b, c])];
    assert Init(args) == [a];
    if Expands([a], p) {
      OnlyLeaves([a], p);
    } else {
      var k :| 0 <= k <= |p| && Expands([a], p[..k]) && Expands([b, c], p[k..]);
      OnlyLeaves([a], p[..k]);
      OnlyLeaves([b, c], p[k..]);
    }
  }

  lemma {:induction false} OnlyLeaves(args: seq<Arg>, p: Path)
    requires (forall a :: a in args ==> IsLeaf(a)) && Expands(args, p)
    ensures p == args
  {
    if args != [] {
      assert Last(args) in args && args == Init(args) + [Last(args)];
      OnlyLeaves(Init(args), Init(p));
      assert p == Init(p) + [Last(p)];
    }
  }

  // ----- Lines that give everything -----

  /** With every group present, greedy matching takes each word for its own argument, lists included. */
  lemma {:induction false} FullLineTakes(conv: Converter, args: seq<Arg>, words: seq<string>)
    requires WellFormed(args) && ListsLast(args) && Covers(conv, Nodes(args), words)
    ensures var m := Collate(conv, args, words); m.Ok? && m.rest == [] && |m.out| >= |args|
    decreases args
  {
    if args == [] {
      if words != [] {
        PlainItemsEnd([], 0);
      }
    } else {
      var init, last := Init(args), Last(args);
      var front, back := Nodes(init), NodesOf(last);
      assert last in args;
      ListsLastParts(args);
      if back == [] {
        assert Nodes(args) == front;
        FullLineTakes(conv, init, words);
      } else {
        FullFront(conv, args, words);
        var rest := words[|front|..];
        if last.Opt? {
          FullLineTakes(conv, last.args, rest);
        } else {
          assert rest[..|rest|] == rest;
          NodeTakes(conv, last, rest, |rest|);
        }
      }
    }
  }

  lemma FullFront(conv: Converter, args: seq<Arg>, words: seq<string>)
    requires args != [] && NodesOf(Last(args)) != [] && ListsLast(args) && Covers(conv, Nodes(args), words)
    ensures var m, front := Collate(conv, Init(args), words), Nodes(Init(args));
      && |front| < |words| && m.Ok? && |m.out| == |args| - 1 && m.rest == words[|front|..]
      && Covers(conv, NodesOf(Last(args)), words[|front|..])
  {
    var front, back := Nodes(Init(args)), NodesOf(Last(args));
    FullExpansion(Init(args));
    FrontIsPlain(args, front);
    CoversSplit(conv, front, back, words);
    forall i | 0 <= i < |front|
      ensures IsLeaf(front[i]) && Accepts(conv, front[i], words[i])
    {
      PlainItem(front, [], i);
      assert front[i] in front;
      assert Item(front, i) != [] && Accepts(conv, Item(front, i)[0], words[..|front|][i]);
    }
    FullLineMatches(conv, Init(args), words);
  }

  /** A line that gives every argument is accepted, whatever competes for its words. */
  lemma FullLineAccepted(conv: Converter, args: seq<Arg>, words: seq<string>)
    requires WellFormed(args) && ListsLast(args) && Covers(conv, Nodes(args), words)
    ensures Accepted(conv, args, words)
  {
    FullLineTakes(conv, args, words);
  }
}

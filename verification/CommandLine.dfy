/**
 The command handler: which lines it accepts, what it hands to its function, and what tab
 completion offers. The matcher, the graph and the completer are proved to agree.
 */
module CommandLine {
  import opened Common
  import opened Arguments
  import opened ArgumentGraph
  import opened ArgumentPaths
  import opened Matching

  // ----- Greedy matching is sound for the expansions -----

  ghost predicate ExpandsArg(a: Arg, p: Path) {
    match a
    case Opt(g) => p == [] || Expands(g, p)
    case _ => p == [a]
  }

  lemma ExpandsMore(args: seq<Arg>, p: Path, q: Path)
    requires args != [] && Expands(Init(args), p) && ExpandsArg(Last(args), q)
    ensures Expands(args, p + q)
  {
    var all, k := p + q, |p|;
    assert all[..k] == p && all[k..] == q;
    if Last(args).Opt? {
      assert q == [] ==> all == p;
    } else {
      assert Init(all) == p;
    }
  }

  function Used(m: Match, words: seq<string>): (r: seq<string>)
    requires m.Ok? ==> |m.rest| <= |words|
  {
    if m.Ok? then words[..|words| - |m.rest|] else words
  }

  /** The words used label the start of `p`, and label all of it while words are left. */
  ghost predicate Traces(conv: Converter, p: Path, m: Match, words: seq<string>)
    requires m.Ok? ==> |m.rest| <= |words|
  {
    && Labels(conv, p, Used(m, words))
    && (m.Ok? && m.rest != [] ==> Plain(p) && |p| == |words| - |m.rest|)
  }

  lemma {:induction false} CollateSound(conv: Converter, args: seq<Arg>, words: seq<string>) returns (p: Path)
    requires WellFormed(args) && !Collate(conv, args, words).Invalid?
    ensures Expands(args, p) && Traces(conv, p, Collate(conv, args, words), words)
    decreases args, 1
  {
    p := [];
    if args != [] {
      var m1 := Collate(conv, Init(args), words);
      var p1 := CollateSound(conv, Init(args), words);
      if m1.Ok? {
        var m2 := MatchArg(conv, Last(args), m1.rest);
        var p2 := MatchSound(conv, Last(args), m1.rest);
        p := p1 + p2;
        ExpandsMore(args, p1, p2);
        JoinTraces(conv, p1, m1, p2, m2, words, Init(args));
      } else {
        var p2 := NodesOf(Last(args));
        if Last(args).Opt? {
          FullExpansion(Last(args).args);
        }
        p := p1 + p2;
        ExpandsMore(args, p1, p2);
        LabelsLonger(conv, p1, p2, words);
      }
    }
  }

  lemma JoinTraces(
    conv: Converter, p1: Path, m1: Match, p2: Path, m2: Match, words: seq<string>, args: seq<Arg>)
    requires WellFormed(args) && m1 == Collate(conv, args, words) && m1.Ok? && !m2.Invalid?
    requires m2.Ok? ==> |m2.rest| <= |m1.rest|
    requires Traces(conv, p1, m1, words) && Traces(conv, p2, m2, m1.rest)
    ensures Traces(conv, p1 + p2, Append(m1.out, m2), words)
  {
    CollateConserves(conv, args, words);
    var u, v := Used(m1, words), Used(m2, m1.rest);
    assert words == u + m1.rest;
    LabelsConcat(conv, p1, p2, u, v);
    assert Used(Append(m1.out, m2), words) == u + v;
  }

  lemma {:induction false} MatchSound(conv: Converter, a: Arg, words: seq<string>) returns (p: Path)
    requires WellFormedArg(a) && !MatchArg(conv, a, words).Invalid?
    ensures ExpandsArg(a, p) && Traces(conv, p, MatchArg(conv, a, words), words)
    decreases a, 1
  {
    match a
    case Opt(g) =>
      p := [];
      if words != [] && !Collate(conv, g, words).Invalid? {
        p := CollateSound(conv, g, words);
      }
    case Rep(_, g) =>
      p := [a];
      RepeatLabels(conv, g, words);
    case _ =>
      p := [a];
  }

  /** A list of keywords and parameters takes one word each. */
  lemma {:induction false} LeavesTakeWords(conv: Converter, g: seq<Arg>, words: seq<string>)
    requires (forall a :: a in g ==> IsLeaf(a)) && WellFormed(g)
    requires !Collate(conv, g, words).Invalid?
    ensures var m := Collate(conv, g, words);
      if m.Ok? then |words| >= |g| && m.rest == words[|g|..] else |words| < |g|
    ensures forall i :: 0 <= i < |words| && i < |g| ==> Accepts(conv, g[i], words[i])
  {
    if g != [] {
      var init, last := Init(g), Last(g);
      assert last in g && g == init + [last];
      LeavesTakeWords(conv, init, words);
      OneMore(conv, init, last, words);
      if |init| < |words| {
        assert words[|init|..][0] == words[|init|] && words[|init|..][1..] == words[|g|..];
      }
    }
  }

  lemma {:induction false} RepeatLabels(conv: Converter, g: seq<Arg>, words: seq<string>)
    requires g != [] && forall a :: a in g ==> IsLeaf(a)
    requires !Repeat(conv, g, words).Invalid?
    ensures forall i :: 0 <= i < |words| ==> Accepts(conv, Cycle(g, i), words[i])
    decreases |words|
  {
    if words != [] {
      assert WellFormed(g);
      LeavesTakeWords(conv, g, words);
      var m := Collate(conv, g, words);
      if m.Ok? {
        RepeatLabels(conv, g, m.rest);
      }
      forall i | 0 <= i < |words|
        ensures Accepts(conv, Cycle(g, i), words[i])
      {
        if i >= |g| {
          assert words[i] == m.rest[i - |g|];
        }
      }
    }
  }

  // ----- The handler -----

  /** The arguments for the handler function, or an error. */
  function Call(conv: Converter, args: seq<Arg>, words: seq<string>): (m: Match) {
    var m := Collate(conv, args, words);
    if m.Endless? then m
    else if m.Invalid? || |m.out| < |args| || (m.Ok? && m.rest != []) then Invalid else m
  }

  method RunLine(conv: Converter, args: seq<Arg>, line: seq<string>) returns (m: Match)
    ensures m == Call(conv, args, line)
  {
    var words := new WordList(line);
    m := CollateWords(conv, args, words);
    if !m.Endless? && (m.Invalid? || |m.out| < |args| || words.items != []) {
      m := Invalid;
    }
  }

  predicate Accepted(conv: Converter, args: seq<Arg>, words: seq<string>) {
    var m := Call(conv, args, words);
    m.Ok? || m.Stopped?
  }

  /** What the handler function receives holds all the words of the line, in order. */
  lemma AcceptedConserves(conv: Converter, args: seq<Arg>, words: seq<string>)
    requires Accepted(conv, args, words)
    ensures Words(Call(conv, args, words).out) == words
  {
    CollateConserves(conv, args, words);
  }

  /**
   Every accepted line labels, word by word, the start of a path the graph enumerates, exactly
   if the argument list does not end in an empty optional group.
   */
  lemma AcceptedIsPath(conv: Converter, args: seq<Arg>, words: seq<string>)
    requires IsCommand(args) && WellFormed(args) && Accepted(conv, args, words)
    ensures (exists p :: p in Enumerated(args) && Labels(conv, p, words)) <==> !EndsInEmptyGroup(args)
  {
    if EndsInEmptyGroup(args) {
      NothingEnumerated(args);
    } else {
      var q := CollateSound(conv, args, words);
      ExpansionIsPrefix(args, q);
      var p :| p in Enumerated(args) && q <= p;
      assert p == q + p[|q|..];
      assert Used(Collate(conv, args, words), words) == words;
      LabelsLonger(conv, q, p[|q|..], words);
    }
  }

  /** Words that fit all the nodes of a list, one by one. */
  ghost predicate FitsNodes(conv: Converter, ns: seq<Arg>, words: seq<string>) {
    |ns| <= |words| && forall i :: 0 <= i < |ns| ==> IsLeaf(ns[i]) && Accepts(conv, ns[i], words[i])
  }

  lemma FitsNodesSplit(conv: Converter, a: seq<Arg>, b: seq<Arg>, words: seq<string>)
    requires FitsNodes(conv, a + b, words)
    ensures FitsNodes(conv, a, words) && FitsNodes(conv, b, words[|a|..])
  {
    var ns := a + b;
    assert forall i :: 0 <= i < |a| ==> ns[i] == a[i];
    forall i | 0 <= i < |b|
      ensures IsLeaf(b[i]) && Accepts(conv, b[i], words[|a|..][i])
    {
      assert ns[|a| + i] == b[i];
    }
  }

  /** With every optional group present, greedy matching takes each word for its own argument. */
  lemma {:induction false} FullLineMatches(conv: Converter, args: seq<Arg>, words: seq<string>)
    requires FitsNodes(conv, Nodes(args), words)
    ensures var m := Collate(conv, args, words);
      m.Ok? && |m.out| == |args| && m.rest == words[|Nodes(args)|..]
    decreases args
  {
    if args != [] {
      var init, last := Init(args), Last(args);
      var front, back := Nodes(init), NodesOf(last);
      FitsNodesSplit(conv, front, back, words);
      FullLineMatches(conv, init, words);
      var rest := words[|front|..];
      assert rest[|back|..] == words[|Nodes(args)|..];
      if last.Opt? {
        assert last in args;
        FullLineMatches(conv, last.args, rest);
      } else {
        assert IsLeaf(back[0]);
        LeafMatches(conv, last, rest);
      }
    }
  }

  lemma LeafMatches(conv: Converter, a: Arg, words: seq<string>)
    requires IsLeaf(a) && words != [] && Accepts(conv, a, words[0])
    ensures var m := MatchArg(conv, a, words); m.Ok? && |m.out| == 1 && m.rest == words[1..]
  {
  }

  // ----- Tab completion -----

  /** The converters of a shell's parameters, and what each parameter suggests for a fragment. */
  datatype Parameters = Parameters(conv: Converter, suggest: (nat, string) -> seq<string>)

  /** The word is offered, with or without a space after it. */
  predicate Echoes(offers: seq<string>, w: string) {
    w in offers || w + " " in offers
  }

  /** A valid word is among the suggestions for itself. */
  ghost predicate SuggestsValidWords(ps: Parameters) {
    forall id, w :: w != "" && ps.conv(id, w) ==> Echoes(ps.suggest(id, w), w)
  }

  /** It is so with a space after it. */
  ghost predicate AddsSpaces(ps: Parameters) {
    forall id, w :: w != "" && ps.conv(id, w) ==> w + " " in ps.suggest(id, w)
  }

  /** The suggestions of a parameter without a completer of its own. */
  function DefaultSuggest(conv: Converter, id: nat, w: string): (r: seq<string>) {
    if w == "" then [""] else if conv(id, w) then [w + " "] else []
  }

  function DefaultParameters(conv: Converter): (ps: Parameters) {
    Parameters(conv, (id: nat, w: string) => DefaultSuggest(conv, id, w))
  }

  /** Default suggestions continue the fragment, and there are some exactly if it is empty or valid. */
  lemma DefaultsSuggestValidWords(conv: Converter)
    ensures SuggestsValidWords(DefaultParameters(conv)) && AddsSpaces(DefaultParameters(conv))
    ensures forall id, w :: DefaultSuggest(conv, id, w) != [] <==> w == "" || conv(id, w)
    ensures forall id, w, s :: s in DefaultSuggest(conv, id, w) ==> w <= s && |s| <= |w| + 1
  {
    var ps := DefaultParameters(conv);
    forall id: nat, w: string | w != "" && conv(id, w)
      ensures w + " " in ps.suggest(id, w)
    {
      assert ps.suggest(id, w) == [w + " "];
    }
  }

  // Completers that offer those of a list of names which continue the fragment.

  function OfferedNames(names: seq<string>, w: string, ending: string): (r: seq<string>) {
    if names == [] then []
    else OfferedNames(Init(names), w, ending) + if w <= Last(names) then [Last(names) + ending] else []
  }

  lemma {:induction false} OffersAre(names: seq<string>, w: string, ending: string, s: string)
    ensures s in OfferedNames(names, w, ending) <==> exists n :: n in names && w <= n && s == n + ending
  {
    if names != [] {
      OffersAre(Init(names), w, ending, s);
      assert names == Init(names) + [Last(names)];
    }
  }

  /** Parameters that take the names of a list each; those of packages and classes are offered with a space. */
  function NamedParameters(names: nat -> seq<string>, spaced: nat -> bool): (ps: Parameters) {
    Parameters(
      (id: nat, w: string) => w in names(id),
      (id: nat, w: string) => OfferedNames(names(id), w, if spaced(id) then " " else ""))
  }

  lemma {:induction false} LongestName(names: seq<string>) returns (n: string)
    requires names != []
    ensures n in names && forall w :: w in names ==> |w| <= |n|
  {
    n := Last(names);
    assert names == Init(names) + [n];
    if |names| > 1 {
      var m := LongestName(Init(names));
      n := if |m| > |n| then m else n;
    }
  }

  /** Names are offered as they are; with a space after each, exactly where that is added or there are none. */
  lemma NamesSuggestThemselves(names: nat -> seq<string>, spaced: nat -> bool)
    ensures var ps := NamedParameters(names, spaced);
      && SuggestsValidWords(ps)
      && (AddsSpaces(ps) <==> forall id :: spaced(id) || forall n :: n in names(id) ==> n == "")
  {
    var ps := NamedParameters(names, spaced);
    forall id: nat, w: string | w != "" && ps.conv(id, w)
      ensures Echoes(ps.suggest(id, w), w)
      ensures spaced(id) ==> w + " " in ps.suggest(id, w)
    {
      var ending := if spaced(id) then " " else "";
      OffersAre(names(id), w, ending, w + ending);
      assert w + "" == w;
    }
    if id :| !spaced(id) && !forall n :: n in names(id) ==> n == "" {
      var n := LongestName(names(id));
      OffersAre(names(id), n, "", n + " ");
      assert forall m: string :: m + "" == m;
      assert |n + " "| > |n|;
      assert ps.conv(id, n) && n + " " !in ps.suggest(id, n);
    }
  }

  /** The one host "h" is offered without a space. */
  lemma HostWithoutSpace()
    ensures var ps := NamedParameters(_ => ["h"], _ => false);
      ps.conv(0, "h") && ps.suggest(0, "h") == ["h"]
  {
    var names := ["h"];
    assert Init(names) == [] && Last(names) == "h" && "h" + "" == "h";
    assert OfferedNames([], "h", "") == [];
    assert OfferedNames(names, "h", "") == ["h"];
  }

  function CompleteArg(ps: Parameters, a: Arg, w: string): (r: seq<string>) {
    match a
    case Keyword(_, kw) => if w <= kw then [kw + " "] else []
    case Param(id) => ps.suggest(id, w)
    case _ => []
  }

  /** Completion along one path: every word so far must still be completable. */
  function CompletePath(ps: Parameters, p: Path, words: seq<string>): (r: seq<string>)
    requires words != []
  {
    if |words| > 1 && CompletePath(ps, p, Init(words)) == [] then []
    else
      var item := Item(p, |words| - 1);
      if item == [] then [] else CompleteArg(ps, item[0], Last(words))
  }

  ghost function Complete(ps: Parameters, args: seq<Arg>, words: seq<string>): (r: set<string>)
    requires IsCommand(args) && words != []
  {
    set p, s | p in Enumerated(args) && s in CompletePath(ps, p, words) :: s
  }

  /** The words to complete: those of the line, and the fragment unless it is the last of them. */
  function Fragments(line: seq<string>, text: string): (r: seq<string>)
    requires line != []
    ensures r != [] && Last(r) == text && line <= r
    ensures |r| == |line| <==> Last(line) == text
  {
    if Last(line) != text then line + [text] else line
  }

  lemma {:induction false} LabelledPathCompletes(ps: Parameters, p: Path, words: seq<string>)
    requires SuggestsValidWords(ps) && words != [] && (forall w :: w in words ==> w != "")
    requires Labels(ps.conv, p, words)
    ensures Echoes(CompletePath(ps, p, words), Last(words))
    ensures AddsSpaces(ps) ==> Last(words) + " " in CompletePath(ps, p, words)
  {
    if |words| > 1 {
      assert forall w :: w in Init(words) ==> w in words;
      LabelledPathCompletes(ps, p, Init(words));
    }
    var i := |words| - 1;
    assert Item(p, i) != [] && Accepts(ps.conv, Item(p, i)[0], words[i]);
    assert words[i] in words;
  }

  /**
   Completion never dead-ends a valid command: completing an accepted line up to any of its
   words offers that word, exactly if the argument list does not end in an empty optional group;
   with a space after it if the completers add one.
   */
  lemma CompletionReachesWords(ps: Parameters, args: seq<Arg>, words: seq<string>, k: nat)
    requires IsCommand(args) && WellFormed(args)
    requires SuggestsValidWords(ps) && (forall w :: w in words ==> w != "")
    requires Accepted(ps.conv, args, words) && k < |words|
    ensures var offers := Complete(ps, args, Fragments(words[..k + 1], words[k]));
      && (words[k] in offers || words[k] + " " in offers <==> !EndsInEmptyGroup(args))
      && (AddsSpaces(ps) ==> (words[k] + " " in offers <==> !EndsInEmptyGroup(args)))
  {
    AcceptedIsPath(ps.conv, args, words);
    if EndsInEmptyGroup(args) {
      NothingEnumerated(args);
    } else {
      var p :| p in Enumerated(args) && Labels(ps.conv, p, words);
      var start := words[..k + 1];
      assert forall w :: w in start ==> w in words;
      LabelledPathCompletes(ps, p, start);
    }
  }

  /** Such a list is possible, and a line is accepted for it. */
  lemma EmptyGroupAccepts(conv: Converter)
    ensures var args := [Keyword(0, "foo"), Opt([])];
      IsCommand(args) && WellFormed(args) && EndsInEmptyGroup(args) && Accepted(conv, args, ["foo"])
  {
  }

  /** With the default completer this holds without further conditions on the parameters. */
  lemma DefaultCompletionReachesWords(conv: Converter, args: seq<Arg>, words: seq<string>, k: nat)
    requires IsCommand(args) && WellFormed(args) && !EndsInEmptyGroup(args)
    requires Accepted(conv, args, words) && (forall w :: w in words ==> w != "") && k < |words|
    ensures var ps := DefaultParameters(conv);
      words[k] + " " in Complete(ps, args, Fragments(words[..k + 1], words[k]))
  {
    DefaultsSuggestValidWords(conv);
    CompletionReachesWords(DefaultParameters(conv), args, words, k);
  }
}

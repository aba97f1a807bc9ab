/**
 Matching the words of a command line against the argument list. Matching is greedy and
 consumes the word list in place; only an optional group that fails puts its words back.
 */
module Matching {
  import opened Common
  import opened Arguments

  /** What a handler function receives for an argument. */
  datatype Value =
    | Word(text: string)
    | Converted(id: nat, text: string)
    | NoValue
    | Default(id: nat)
    | Group(values: seq<Value>)

  /** Whether the converter of parameter `id` takes a word. */
  type Converter = (nat, string) -> bool

  /**
   Ok: all arguments were met. Stopped: the words ran out first. Invalid: an exception. Endless:
   a repeated group goes round for ever without taking a word.
   */
  datatype Match = Ok(out: seq<Value>, rest: seq<string>) | Stopped(out: seq<Value>) | Invalid | Endless

  function DefaultOf(a: Arg): (v: Value) {
    match a
    case Keyword(_, _) => NoValue
    case Param(id) => Default(id)
    case Opt(g) => Group(Defaults(g))
    case Rep(_, _) => Group([])
  }

  function Defaults(args: seq<Arg>): (vs: seq<Value>) {
    if args == [] then [] else Defaults(Init(args)) + [DefaultOf(Last(args))]
  }

  predicate Accepts(conv: Converter, a: Arg, word: string) {
    match a
    case Keyword(_, kw) => kw == word
    case Param(id) => conv(id, word)
    case _ => false
  }

  function MatchArg(conv: Converter, a: Arg, words: seq<string>): (m: Match)
    ensures m.Ok? ==> |m.rest| <= |words|
    ensures m.Ok? && IsLeaf(a) ==> |m.rest| < |words|
    ensures WellFormedArg(a) ==> !m.Endless?
    decreases a, 0
  {
    match a
    case Keyword(_, kw) =>
      if words == [] then Stopped([]) else if kw == words[0] then Ok([Word(kw)], words[1..]) else Invalid
    case Param(id) =>
      if words == [] then Stopped([])
      else if conv(id, words[0]) then Ok([Converted(id, words[0])], words[1..]) else Invalid
    case Opt(g) =>
      if words == [] then Ok([DefaultOf(a)], [])
      else
        (match Collate(conv, g, words)
         case Ok(out, rest) => Ok([Group(out)], rest)
         case Stopped(out) => Ok([Group(out)], [])
         case Invalid => Ok([DefaultOf(a)], words)
         case Endless => Endless)
    case Rep(_, g) =>
      if words == [] then Invalid else Repeat(conv, g, words)
  }

  function Collate(conv: Converter, args: seq<Arg>, words: seq<string>): (m: Match)
    ensures m.Ok? ==> |m.rest| <= |words|
    ensures m.Ok? && args != [] && IsLeaf(Last(args)) ==> |m.rest| < |words|
    ensures WellFormed(args) ==> !m.Endless?
    decreases args, 0
  {
    if args == [] then Ok([], words)
    else
      var m := Collate(conv, Init(args), words);
      if m.Ok? then Append(m.out, MatchArg(conv, Last(args), m.rest)) else m
  }

  function Append(out: seq<Value>, m: Match): (r: Match) {
    match m
    case Ok(o, rest) => Ok(out + o, rest)
    case Stopped(o) => Stopped(out + o)
    case Invalid => Invalid
    case Endless => Endless
  }

  /** Rounds of the group until no word is left; the last round may be cut short. */
  function Repeat(conv: Converter, g: seq<Arg>, words: seq<string>): (m: Match)
    ensures !m.Stopped? && (m.Ok? ==> m.rest == [])
    ensures g != [] && (forall a :: a in g ==> IsLeaf(a)) ==> !m.Endless?
    decreases g, 1, |words|
  {
    assert (forall a :: a in g ==> IsLeaf(a)) ==> WellFormed(g);
    if words == [] then Ok([], [])
    else
      match Collate(conv, g, words)
      case Ok(out, rest) => if |rest| < |words| then Append(out, Repeat(conv, g, rest)) else Endless
      case Stopped(out) => Ok(out, [])
      case Invalid => Invalid
      case Endless => Endless
  }

  // ----- Short lists, argument by argument -----

  lemma KeywordThenParameter(conv: Converter, a: Arg, b: Arg, words: seq<string>)
    requires a.Keyword? && b.Param? && words != []
    ensures WellFormed([a, b])
    ensures Collate(conv, [a, b], words) ==
      if words[0] != a.kw || (|words| > 1 && !conv(b.id, words[1])) then Invalid
      else if |words| == 1 then Stopped([Word(a.kw)])
      else Ok([Word(a.kw), Converted(b.id, words[1])], words[2..])
  {
    FirstKeyword(conv, a, words);
    OneMore(conv, [a], b, words);
    assert [a] + [b] == [a, b];
    if words[0] == a.kw && |words| > 1 {
      var rest := words[1..];
      assert rest[0] == words[1] && rest[1..] == words[2..];
      assert MatchArg(conv, b, rest) ==
        if conv(b.id, words[1]) then Ok([Converted(b.id, words[1])], words[2..]) else Invalid;
    }
  }

  lemma FirstKeyword(conv: Converter, a: Arg, words: seq<string>)
    requires a.Keyword? && words != []
    ensures WellFormed([a])
    ensures Collate(conv, [a], words) == if words[0] == a.kw then Ok([Word(a.kw)], words[1..]) else Invalid
  {
    OneMore(conv, [], a, words);
    assert [] + [a] == [a];
  }

  lemma OneMore(conv: Converter, args: seq<Arg>, a: Arg, words: seq<string>)
    requires WellFormed(args) && IsLeaf(a)
    ensures WellFormed(args + [a])
    ensures var m := Collate(conv, args, words);
      Collate(conv, args + [a], words) == if m.Ok? then Append(m.out, MatchArg(conv, a, m.rest)) else m
  {
    assert Init(args + [a]) == args && Last(args + [a]) == a;
  }

  // ----- The matcher itself, on a shared list of words -----

  class WordList {
    var items: seq<string>

    constructor (items: seq<string>)
      ensures this.items == items
    {
      this.items := items;
    }

    method Pop() returns (word: string)
      requires items != []
      modifies this
      ensures [word] + items == old(items)
    {
      word := items[0];
      items := items[1..];
    }
  }

  ghost predicate LeavesRest(m: Match, words: WordList)
    reads words
  {
    && (m.Ok? ==> words.items == m.rest)
    && (m.Stopped? ==> words.items == [])
  }

  method MatchWords(conv: Converter, a: Arg, words: WordList) returns (m: Match)
    modifies words
    ensures m == MatchArg(conv, a, old(words.items))
    ensures LeavesRest(m, words)
    decreases a, 0
  {
    match a
    case Keyword(_, kw) =>
      if words.items == [] {
        return Stopped([]);
      }
      if kw != words.items[0] {
        return Invalid;
      }
      var w := words.Pop();
      m := Ok([Word(w)], words.items);
    case Param(id) =>
      if words.items == [] {
        return Stopped([]);
      }
      var w := words.Pop();
      m := if conv(id, w) then Ok([Converted(id, w)], words.items) else Invalid;
    case Opt(g) =>
      m := Ok([DefaultOf(a)], words.items);
      if words.items != [] {
        var copy := new WordList(words.items);
        var inner := CollateWords(conv, g, copy);
        if inner.Endless? {
          return Endless;
        }
        if !inner.Invalid? {
          words.items := copy.items;
          m := Ok([Group(inner.out)], words.items);
        }
      }
    case Rep(_, g) =>
      if words.items == [] {
        return Invalid;
      }
      m := RepeatWords(conv, g, words);
  }

  method CollateWords(conv: Converter, args: seq<Arg>, words: WordList) returns (m: Match)
    modifies words
    ensures m == Collate(conv, args, old(words.items))
    ensures LeavesRest(m, words)
    decreases args, 0
  {
    m := Ok([], words.items);
    var i := 0;
    while i < |args| && m.Ok?
      invariant 0 <= i <= |args|
      invariant m == Collate(conv, args[..i], old(words.items))
      invariant LeavesRest(m, words)
      decreases |args| - i
    {
      assert Init(args[..i + 1]) == args[..i];
      var next := MatchWords(conv, args[i], words);
      m := Append(m.out, next);
      i := i + 1;
    }
    CollateEnded(conv, args, i, old(words.items));
  }

  /** A round that takes no word is followed by the same round again, and so on. */
  method RepeatWords(conv: Converter, g: seq<Arg>, words: WordList) returns (m: Match)
    modifies words
    ensures m == Repeat(conv, g, old(words.items))
    ensures LeavesRest(m, words)
    decreases g, 1
  {
    var out := [];
    while words.items != []
      invariant Repeat(conv, g, old(words.items)) == Append(out, Repeat(conv, g, words.items))
      decreases |words.items|
    {
      var before := |words.items|;
      var round := CollateWords(conv, g, words);
      if round.Invalid? || round.Endless? {
        return round;
      }
      if |words.items| == before {
        return Endless;
      }
      assert forall m :: Append(out, Append(round.out, m)) == Append(out + round.out, m);
      out := out + round.out;
    }
    m := Ok(out, []);
  }

  lemma {:induction false} CollateEnded(conv: Converter, args: seq<Arg>, i: nat, words: seq<string>)
    requires i <= |args|
    requires i == |args| || !Collate(conv, args[..i], words).Ok?
    ensures Collate(conv, args, words) == Collate(conv, args[..i], words)
  {
    if i == |args| {
      assert args[..i] == args;
    } else {
      assert Init(args)[..i] == args[..i];
      CollateEnded(conv, Init(args), i, words);
    }
  }

  // ----- No word is lost, duplicated or moved -----

  function Words(vs: seq<Value>): (ws: seq<string>) {
    if vs == [] then [] else Words(Init(vs)) + WordsOf(Last(vs))
  }

  function WordsOf(v: Value): (ws: seq<string>) {
    match v
    case Word(t) => [t]
    case Converted(_, t) => [t]
    case Group(vs) => Words(vs)
    case _ => []
  }

  lemma {:induction false} WordsConcat(a: seq<Value>, b: seq<Value>)
    ensures Words(a + b) == Words(a) + Words(b)
  {
    if b == [] {
      assert a + b == a;
    } else {
      WordsConcat(a, Init(b));
      assert Init(a + b) == a + Init(b) && Last(a + b) == Last(b);
      var x, y, z := Words(a), Words(Init(b)), WordsOf(Last(b));
      assert x + y + z == x + (y + z);
    }
  }

  lemma {:induction false} DefaultsHoldNoWord(args: seq<Arg>)
    ensures Words(Defaults(args)) == []
    decreases args
  {
    if args != [] {
      DefaultsHoldNoWord(Init(args));
      if Last(args).Opt? {
        DefaultsHoldNoWord(Last(args).args);
      }
      assert Init(Defaults(args)) == Defaults(Init(args));
    }
  }

  ghost predicate Conserves(m: Match, words: seq<string>) {
    match m
    case Ok(out, rest) => Words(out) + rest == words
    case Stopped(out) => Words(out) == words
    case _ => true
  }

  lemma AppendConserves(out: seq<Value>, m: Match, used: seq<string>, words: seq<string>)
    requires Words(out) == used && Conserves(m, words)
    ensures Conserves(Append(out, m), used + words)
  {
    if m.Ok? || m.Stopped? {
      WordsConcat(out, m.out);
    }
  }

  /** The values handed on hold the matched words in order; the other words are still in the list. */
  lemma {:induction false} CollateConserves(conv: Converter, args: seq<Arg>, words: seq<string>)
    ensures Conserves(Collate(conv, args, words), words)
    decreases args, 1
  {
    if args != [] {
      CollateConserves(conv, Init(args), words);
      var m := Collate(conv, Init(args), words);
      if m.Ok? {
        MatchConserves(conv, Last(args), m.rest);
        AppendConserves(m.out, MatchArg(conv, Last(args), m.rest), Words(m.out), m.rest);
      }
    }
  }

  lemma WordsOfOne(v: Value)
    ensures Words([v]) == WordsOf(v)
  {
    assert Init([v]) == [];
  }

  lemma {:induction false} MatchConserves(conv: Converter, a: Arg, words: seq<string>)
    ensures Conserves(MatchArg(conv, a, words), words)
    decreases a, 1
  {
    match a
    case Opt(g) =>
      GroupConserves(conv, g, words);
    case Rep(_, g) =>
      RepeatConserves(conv, g, words);
    case Keyword(_, kw) =>
      WordsOfOne(Word(kw));
    case Param(id) =>
      if words != [] {
        WordsOfOne(Converted(id, words[0]));
      }
  }

  lemma {:induction false} GroupConserves(conv: Converter, g: seq<Arg>, words: seq<string>)
    ensures Conserves(MatchArg(conv, Opt(g), words), words)
    decreases g, 2
  {
    DefaultsHoldNoWord(g);
    WordsOfOne(DefaultOf(Opt(g)));
    CollateConserves(conv, g, words);
    var m := Collate(conv, g, words);
    if m.Ok? || m.Stopped? {
      WordsOfOne(Group(m.out));
    }
  }

  lemma {:induction false} RepeatConserves(conv: Converter, g: seq<Arg>, words: seq<string>)
    ensures Conserves(Repeat(conv, g, words), words)
    decreases g, 2, |words|
  {
    if words != [] {
      CollateConserves(conv, g, words);
      var m := Collate(conv, g, words);
      if m.Ok? && |m.rest| < |words| {
        RepeatConserves(conv, g, m.rest);
        AppendConserves(m.out, Repeat(conv, g, m.rest), Words(m.out), m.rest);
      }
    }
  }

  // ----- Matched words label the start of an expansion -----

  /** The words fit, one by one, the first arguments met along the path. */
  ghost predicate Labels(conv: Converter, p: Path, words: seq<string>) {
    forall i :: 0 <= i < |words| ==> Item(p, i) != [] && Accepts(conv, Item(p, i)[0], words[i])
  }

  ghost predicate Plain(p: Path) {
    forall n :: n in p ==> !n.Rep?
  }

  lemma {:induction false} ItemOfPrefix(p: Path, q: Path, i: nat)
    requires Item(p, i) != []
    ensures Item(p + q, i) == Item(p, i)
  {
    assert (p + q)[1..] == p[1..] + q;
    if p[0].Rep? {
      if p[0].args == [] {
        ItemOfPrefix(p[1..], q, i);
      }
    } else if i > 0 {
      ItemOfPrefix(p[1..], q, i - 1);
    }
  }

  lemma {:induction false} ItemAfter(p: Path, q: Path, i: nat)
    requires Plain(p)
    ensures Item(p + q, |p| + i) == Item(q, i)
  {
    if p == [] {
      assert p + q == q;
    } else {
      assert (p + q)[1..] == p[1..] + q;
      ItemAfter(p[1..], q, i);
    }
  }

  lemma LabelsLonger(conv: Converter, p: Path, q: Path, words: seq<string>)
    requires Labels(conv, p, words)
    ensures Labels(conv, p + q, words)
  {
    forall i | 0 <= i < |words|
      ensures Item(p + q, i) != [] && Accepts(conv, Item(p + q, i)[0], words[i])
    {
      ItemOfPrefix(p, q, i);
    }
  }

  lemma LabelsConcat(conv: Converter, p: Path, q: Path, u: seq<string>, v: seq<string>)
    requires Labels(conv, p, u) && Labels(conv, q, v) && (v != [] ==> Plain(p) && |p| == |u|)
    ensures Labels(conv, p + q, u + v)
  {
    forall i | 0 <= i < |u + v|
      ensures Item(p + q, i) != [] && Accepts(conv, Item(p + q, i)[0], (u + v)[i])
    {
      if i < |u| {
        ItemOfPrefix(p, q, i);
      } else {
        ItemAfter(p, q, i - |u|);
      }
    }
  }
}

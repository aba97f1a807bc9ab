/**
 Exactly what tab completion offers: what the arguments that can come next offer for the
 fragment, along the ways through the declaration that the words before it leave open.
 */
module Completions {
  import opened Common
  import opened Arguments
  import opened ArgumentGraph
  import opened ArgumentPaths
  import opened Matching
  import opened CommandLine

  /** `s` is offered by an argument for a fragment. */
  ghost predicate Offers(ps: Parameters, a: Arg, fragment: string, s: string) {
    match a
    case Keyword(_, kw) => fragment <= kw && s == kw + " "
    case Param(id) => s in ps.suggest(id, fragment)
    case _ => false
  }

  /** The i-th argument met along the path leaves the word open: it has something to offer for it. */
  ghost predicate Open(ps: Parameters, p: Path, words: seq<string>, i: nat)
    requires i < |words|
  {
    Item(p, i) != [] && exists s :: Offers(ps, Item(p, i)[0], words[i], s)
  }

  /** Along the path all words before the fragment are open, and the argument it meets offers `s`. */
  ghost predicate OffersAlong(ps: Parameters, p: Path, words: seq<string>, s: string)
    requires words != []
  {
    && (forall i :: 0 <= i < |words| - 1 ==> Open(ps, p, words, i))
    && Item(p, |words| - 1) != [] && Offers(ps, Item(p, |words| - 1)[0], Last(words), s)
  }

  lemma ArgOffers(ps: Parameters, a: Arg, fragment: string, s: string)
    ensures s in CompleteArg(ps, a, fragment) <==> Offers(ps, a, fragment, s)
  {
  }

  lemma {:induction false} PathOffers(ps: Parameters, p: Path, words: seq<string>, s: string)
    requires words != []
    ensures s in CompletePath(ps, p, words) <==> OffersAlong(ps, p, words, s)
  {
    var item := Item(p, |words| - 1);
    if item != [] {
      ArgOffers(ps, item[0], Last(words), s);
    }
    if |words| > 1 {
      var init := Init(words);
      PathIsOpen(ps, p, init);
      forall i | 0 <= i < |init|
        ensures Open(ps, p, words, i) <==> Open(ps, p, init, i)
      {
      }
    }
  }

  lemma {:induction false} PathIsOpen(ps: Parameters, p: Path, words: seq<string>)
    requires words != []
    ensures CompletePath(ps, p, words) != [] <==> forall i :: 0 <= i < |words| ==> Open(ps, p, words, i)
  {
    var n := |words| - 1;
    if |words| > 1 {
      PathIsOpen(ps, p, Init(words));
      assert forall i :: 0 <= i < n ==> (Open(ps, p, words, i) <==> Open(ps, p, Init(words), i));
    }
    if Item(p, n) != [] {
      var own := CompleteArg(ps, Item(p, n)[0], words[n]);
      forall s
        ensures s in own <==> Offers(ps, Item(p, n)[0], words[n], s)
      {
        ArgOffers(ps, Item(p, n)[0], words[n], s);
      }
      assert own != [] ==> own[0] in own;
      assert Open(ps, p, words, n) <==> own != [];
    } else {
      assert !Open(ps, p, words, n);
    }
  }

  lemma OffersLonger(ps: Parameters, p: Path, q: Path, words: seq<string>, s: string)
    requires words != [] && p <= q && OffersAlong(ps, p, words, s)
    ensures OffersAlong(ps, q, words, s)
  {
    assert q == p + q[|p|..];
    forall i | 0 <= i < |words|
      ensures Item(q, i) == Item(p, i)
    {
      assert i < |words| - 1 ==> Open(ps, p, words, i);
      ItemOfPrefix(p, q[|p|..], i);
    }
    forall i | 0 <= i < |words| - 1
      ensures Open(ps, q, words, i)
    {
      assert Open(ps, p, words, i);
    }
  }

  /**
   Something is offered exactly if some expansion of the declaration offers it along its way;
   nothing at all if the list ends in an empty optional group.
   */
  lemma CompleteIs(ps: Parameters, args: seq<Arg>, words: seq<string>, s: string)
    requires IsCommand(args) && words != []
    ensures s in Complete(ps, args, words) <==>
      !EndsInEmptyGroup(args) && exists p :: Expands(args, p) && OffersAlong(ps, p, words, s)
  {
    if EndsInEmptyGroup(args) {
      NothingEnumerated(args);
    } else {
      if s in Complete(ps, args, words) {
        var p :| p in Enumerated(args) && s in CompletePath(ps, p, words);
        PathOffers(ps, p, words, s);
        EnumeratedIsExpansion(args, p);
      }
      if p :| Expands(args, p) && OffersAlong(ps, p, words, s) {
        ExpansionIsPrefix(args, p);
        var q :| q in Enumerated(args) && p <= q;
        OffersLonger(ps, p, q, words, s);
        PathOffers(ps, q, words, s);
      }
    }
  }

  /** Word `k` of the line can be read as a keyword. */
  ghost predicate IsKeywordAt(conv: Converter, args: seq<Arg>, words: seq<string>, k: nat) {
    exists p :: Expands(args, p) && Labels(conv, p, words) && Item(p, k) != [] && Item(p, k)[0].Keyword?
  }

  /**
   Completing a keyword from any part of it: after the words before it, every beginning of the
   keyword makes completion offer it and a space.
   */
  lemma KeywordsComplete(ps: Parameters, args: seq<Arg>, words: seq<string>, k: nat, fragment: string)
    requires IsCommand(args) && SuggestsValidWords(ps) && (forall w :: w in words ==> w != "")
    requires k < |words| && IsKeywordAt(ps.conv, args, words, k) && fragment <= words[k]
    ensures words[k] + " " in Complete(ps, args, words[..k] + [fragment]) <==> !EndsInEmptyGroup(args)
  {
    var p :| Expands(args, p) && Labels(ps.conv, p, words) && Item(p, k) != [] && Item(p, k)[0].Keyword?;
    var start := words[..k] + [fragment];
    forall i | 0 <= i < |start| - 1
      ensures Open(ps, p, start, i)
    {
      assert start[i] == words[i] && words[i] in words;
      assert Item(p, i) != [] && Accepts(ps.conv, Item(p, i)[0], words[i]);
      WordIsOpen(ps, Item(p, i)[0], words[i]);
    }
    assert Accepts(ps.conv, Item(p, k)[0], words[k]);
    assert OffersAlong(ps, p, start, words[k] + " ");
    CompleteIs(ps, args, start, words[k] + " ");
  }

  lemma WordIsOpen(ps: Parameters, a: Arg, w: string)
    requires SuggestsValidWords(ps) && w != "" && Accepts(ps.conv, a, w)
    ensures exists s :: Offers(ps, a, w, s)
  {
    match a
    case Keyword(_, kw) => assert Offers(ps, a, w, kw + " ");
    case Param(id) =>
      assert Echoes(ps.suggest(id, w), w);
      assert Offers(ps, a, w, w) || Offers(ps, a, w, w + " ");
    case _ =>
  }
}

/**
 Selecting a class in the shell. The package named on the line reaches the check of the class
 through a piece of state shared with earlier lines and with tab completion; the outcome is
 proved not to depend on that history.
 */
module PackageSelection {
  import opened Common
  import opened Arguments
  import opened Matching
  import CommandLine

  /** What the broker knows: the packages, and the classes of each. */
  datatype Catalog = Catalog(packages: set<string>, classes: map<string, set<string>>) {
    predicate HasClass(package: string, klass: string) {
      klass in ClassesOf(package)
    }

    function ClassesOf(package: string): (names: set<string>) {
      if package in classes then classes[package] else {}
    }
  }

  datatype Selection = Selection(package: string, klass: string)

  /** The package last named, until it is read. */
  class SharedInfo {
    var last: string
    const default: string

    constructor (default: string)
      ensures this.default == default && last == default
    {
      this.default, last := default, default;
    }

    method Set(package: string)
      modifies this
      ensures last == package
    {
      last := package;
    }

    method SetDefault()
      modifies this
      ensures last == default
    {
      last := default;
    }

    method Get() returns (package: string)
      modifies this
      ensures package == old(last) && last == default
    {
      package := last;
      last := default;
    }
  }

  /** Tab completion of a package name. */
  method CompletePackage(info: SharedInfo, catalog: Catalog, fragment: string) returns (offers: set<string>)
    modifies info
    ensures info.last == if fragment in catalog.packages then fragment else info.default
    ensures offers == set p | p in catalog.packages && fragment <= p :: p + " "
  {
    if fragment in catalog.packages {
      info.Set(fragment);
    } else {
      info.SetDefault();
    }
    offers := set p | p in catalog.packages && fragment <= p :: p + " ";
  }

  /** Tab completion of a class name: among the classes of the package last completed. */
  method CompleteClass(info: SharedInfo, catalog: Catalog, fragment: string) returns (offers: set<string>)
    modifies info
    ensures info.last == info.default
    ensures offers == ClassOffers(catalog, old(info.last), fragment)
  {
    var package := info.Get();
    offers := set c | c in catalog.ClassesOf(package) && fragment <= c :: c + " ";
  }

  function ClassOffers(catalog: Catalog, package: string, fragment: string): (offers: set<string>) {
    set c | c in catalog.ClassesOf(package) && fragment <= c :: c + " "
  }

  function PackageOffers(catalog: Catalog, fragment: string): (offers: set<string>) {
    set p | p in catalog.packages && fragment <= p :: p + " "
  }

  /**
   Tab completion of `select class (package PACKAGE) CLASS`, for the words after `select`, the last
   of which is the fragment. First the path without the package is tried, then the one with it;
   each of them asks its arguments in turn as long as they have something to offer.
   */
  method CompleteLine(info: SharedInfo, catalog: Catalog, words: seq<string>) returns (offers: set<string>)
    requires words != []
    modifies info
    ensures info.last == LastAfterCompletion(catalog, info.default, old(info.last), words)
    ensures offers == LineOffers(catalog, info.default, old(info.last), words)
  {
    if !(words[0] <= "class") {
      return {};
    }
    if |words| == 1 {
      return {"class "};
    }
    offers := CompleteClass(info, catalog, words[1]);
    if |words| > 2 {
      offers := {};
    }
    if words[1] <= "package" {
      if |words| == 2 {
        return offers + {"package "};
      }
      var packages := CompletePackage(info, catalog, words[2]);
      assert words[2] in catalog.packages ==> words[2] + " " in packages;
      if |words| == 3 {
        return packages;
      }
      if packages != {} {
        var classes := CompleteClass(info, catalog, words[3]);
        if |words| == 4 {
          offers := classes;
        }
      }
    }
  }

  /** What is remembered after completing a line. */
  function LastAfterCompletion(catalog: Catalog, default: string, last: string, words: seq<string>): (r: string)
    requires words != []
  {
    if !(words[0] <= "class") || |words| == 1 then last
    else if |words| == 3 && words[1] <= "package" && words[2] in catalog.packages then words[2]
    else default
  }

  /** What completing a line offers. */
  function LineOffers(catalog: Catalog, default: string, last: string, words: seq<string>): (r: set<string>)
    requires words != []
  {
    if !(words[0] <= "class") then {}
    else if |words| == 1 then {"class "}
    else if |words| == 2 then
      ClassOffers(catalog, last, words[1]) + if words[1] <= "package" then {"package "} else {}
    else if !(words[1] <= "package") then {}
    else if |words| == 3 then PackageOffers(catalog, words[2])
    else if |words| == 4 && PackageOffers(catalog, words[2]) != {} then
      ClassOffers(catalog, if words[2] in catalog.packages then words[2] else default, words[3])
    else {}
  }

  /**
   What `select class (package PACKAGE) CLASS` selects, from the words after `select`. A class
   that is itself named "package" cannot be selected.
   */
  function Selected(catalog: Catalog, default: string, words: seq<string>): (r: Option<Selection>)
    ensures r.Some? ==> catalog.HasClass(r.value.package, r.value.klass)
    ensures r.Some? ==> r.value.package == default || r.value.package in catalog.packages
  {
    if |words| == 2 && words[0] == "class" && words[1] != "package" && catalog.HasClass(default, words[1]) then
      Some(Selection(default, words[1]))
    else if |words| == 4 && words[0] == "class" && words[1] == "package" && words[2] in catalog.packages &&
            catalog.HasClass(words[2], words[3]) then
      Some(Selection(words[2], words[3]))
    else None
  }

  /** The optional `package PACKAGE`: the package handed on, and the words left; None if nothing may follow. */
  method MatchPackage(info: SharedInfo, catalog: Catalog, words: seq<string>)
    returns (package: Option<string>, rest: seq<string>)
    modifies info
    ensures
      if |words| == 1 && words[0] == "package" then package == None && rest == [] && info.last == info.default
      else if |words| > 1 && words[0] == "package" && words[1] in catalog.packages then
        package == Some(words[1]) && rest == words[2..] && info.last == words[1]
      else package == Some(info.default) && rest == words && info.last == info.default
  {
    info.SetDefault();
    package, rest := Some(info.default), words;
    if words != [] {
      var copy := words;
      if copy[0] != "package" {
        return;
      }
      copy := copy[1..];
      if copy == [] {
        return None, [];
      }
      if copy[0] !in catalog.packages {
        info.SetDefault();
        return;
      }
      info.Set(copy[0]);
      package, rest := Some(copy[0]), copy[1..];
    }
  }

  /**
   Runs a select line. Whatever was completed or failed before, the class is checked against
   the very package that is handed on beside it, and the outcome is the same.
   */
  method SelectClass(info: SharedInfo, catalog: Catalog, words: seq<string>) returns (r: Option<Selection>)
    modifies info
    ensures r == Selected(catalog, info.default, words)
    ensures info.last == LastAfterLine(catalog, info.default, old(info.last), words)
  {
    if words == [] || words[0] != "class" {
      return None;
    }
    var package, rest := MatchPackage(info, catalog, words[1..]);
    if package == None || rest == [] {
      return None;
    }
    var checked := info.Get();
    assert checked == package.value;
    if checked !in catalog.classes || rest[0] !in catalog.classes[checked] {
      return None;
    }
    if |rest| > 1 {
      return None;
    }
    r := Some(Selection(package.value, rest[0]));
  }

  // ----- Any history -----

  /** What is remembered after running a line: the package named, if the class is missing. */
  function LastAfterLine(catalog: Catalog, default: string, last: string, words: seq<string>): (r: string) {
    if words == [] || words[0] != "class" then last
    else if |words| == 3 && words[1] == "package" && words[2] in catalog.packages then words[2]
    else default
  }

  /** A line that was completed or run, and what the broker knew then. */
  datatype Input = Completed(catalog: Catalog, words: seq<string>) | Ran(catalog: Catalog, words: seq<string>)

  predicate Legal(history: seq<Input>) {
    forall i :: i in history ==> i.Completed? ==> i.words != []
  }

  /** The package remembered after a history. */
  function LastAfter(default: string, start: string, history: seq<Input>): (last: string)
    requires Legal(history)
  {
    if history == [] then start
    else
      assert Last(history) in history && forall i :: i in Init(history) ==> i in history;
      var last := LastAfter(default, start, Init(history));
      match Last(history)
      case Completed(catalog, words) => LastAfterCompletion(catalog, default, last, words)
      case Ran(catalog, words) => LastAfterLine(catalog, default, last, words)
  }

  method Replay(info: SharedInfo, history: seq<Input>)
    requires Legal(history)
    modifies info
    ensures info.last == LastAfter(info.default, old(info.last), history)
  {
    assert history[..0] == [];
    for i := 0 to |history|
      invariant Legal(history[..i]) && info.last == LastAfter(info.default, old(info.last), history[..i])
    {
      assert history[i] in history;
      assert Legal(history[..i + 1]) && Init(history[..i + 1]) == history[..i];
      match history[i]
      case Completed(catalog, words) =>
        var _ := CompleteLine(info, catalog, words);
      case Ran(catalog, words) =>
        var _ := SelectClass(info, catalog, words);
    }
    assert history[..|history|] == history;
  }

  /** After any history of completions and lines, a line selects what it would select at once. */
  method SelectAfter(info: SharedInfo, history: seq<Input>, catalog: Catalog, words: seq<string>)
    returns (r: Option<Selection>)
    requires Legal(history)
    modifies info
    ensures r == Selected(catalog, info.default, words)
  {
    Replay(info, history);
    r := SelectClass(info, catalog, words);
  }

  // ----- Completion does depend on the history -----

  /** The line leaves a package behind: it names one and stops there. */
  predicate LeavesPackage(input: Input, package: string) {
    && |input.words| == 3 && input.words[2] == package && package in input.catalog.packages
    && if input.Completed? then input.words[0] <= "class" && input.words[1] <= "package"
       else input.words[0] == "class" && input.words[1] == "package"
  }

  /** The line does not get as far as a package or class. */
  predicate LeavesAlone(input: Input) {
    if input.Completed? then input.words != [] && (!(input.words[0] <= "class") || |input.words| == 1)
    else input.words == [] || input.words[0] != "class"
  }

  /**
   What is remembered after a history is a package other than the default one exactly if a line
   left it behind and no line since has got as far as a package or class.
   */
  lemma {:induction false} RememberedWasLeft(default: string, history: seq<Input>, package: string)
    requires Legal(history) && package != default
    ensures LastAfter(default, default, history) == package <==>
      exists i :: 0 <= i < |history| && LeavesPackage(history[i], package) && AloneAfter(history, i)
  {
    if history != [] {
      var init, n := Init(history), |history| - 1;
      assert Last(history) in history && forall i :: i in init ==> i in history;
      RememberedWasLeft(default, init, package);
      if LeavesAlone(history[n]) {
        forall i | 0 <= i < n
          ensures AloneAfter(history, i) <==> AloneAfter(init, i)
        {
          assert forall j :: i < j < n ==> init[j] == history[j];
        }
        assert forall i :: 0 <= i < n ==> init[i] == history[i];
      } else {
        assert forall i :: 0 <= i < n ==> !AloneAfter(history, i);
        assert AloneAfter(history, n);
      }
    }
  }

  ghost predicate AloneAfter(history: seq<Input>, i: nat) {
    forall j :: i < j < |history| ==> LeavesAlone(history[j])
  }

  lemma SpaceIsCut(c: string, d: string)
    requires c + " " == d + " "
    ensures c == d
  {
    assert c == (c + " ")[..|c|] && d == (d + " ")[..|d|];
  }

  lemma ClassIsOffered(catalog: Catalog, package: string, fragment: string, c: string)
    ensures c + " " in ClassOffers(catalog, package, fragment) <==> catalog.HasClass(package, c) && fragment <= c
  {
    if c + " " in ClassOffers(catalog, package, fragment) {
      var d :| d in catalog.ClassesOf(package) && fragment <= d && c + " " == d + " ";
      SpaceIsCut(c, d);
    }
  }

  /** Completing a class without a package offers it exactly if the line with it would select it. */
  ghost predicate OffersSelectable(catalog: Catalog, default: string, last: string, fragment: string, c: string) {
    c + " " in LineOffers(catalog, default, last, ["class", fragment]) <==>
    fragment <= c && Selected(catalog, default, ["class", c]).Some?
  }

  lemma OffersSelectableIf(catalog: Catalog, default: string, last: string, fragment: string, c: string)
    requires c != "package"
    ensures OffersSelectable(catalog, default, last, fragment, c) <==>
      (fragment <= c ==> (catalog.HasClass(last, c) <==> catalog.HasClass(default, c)))
  {
    ClassIsOffered(catalog, last, fragment, c);
    if c + " " == "package" + " " {
      SpaceIsCut(c, "package");
    }
  }

  /**
   After any history, completion offers exactly the classes a line without package would select,
   exactly if the package remembered has the same classes as the default one.
   */
  lemma CompletionFollowsHistory(catalog: Catalog, default: string, history: seq<Input>)
    requires Legal(history)
    ensures var last := LastAfter(default, default, history);
      (forall fragment, c :: c != "package" ==> OffersSelectable(catalog, default, last, fragment, c)) <==>
      (forall c :: c != "package" ==> (catalog.HasClass(last, c) <==> catalog.HasClass(default, c)))
  {
    var last := LastAfter(default, default, history);
    forall fragment, c | c != "package"
      ensures OffersSelectable(catalog, default, last, fragment, c) <==>
        (fragment <= c ==> (catalog.HasClass(last, c) <==> catalog.HasClass(default, c)))
    {
      OffersSelectableIf(catalog, default, last, fragment, c);
    }
    if c: string :| c != "package" && !(catalog.HasClass(last, c) <==> catalog.HasClass(default, c)) {
      assert !OffersSelectable(catalog, default, last, c, c);
    }
  }

  /**
   After `class package P`, or parts of the two keywords, completion offers exactly the classes the
   line would select, whatever is remembered. For a part of a package name it offers those of the
   default package instead.
   */
  lemma CompletionWithPackage(
    catalog: Catalog, default: string, last: string, a: string, b: string, package: string, fragment: string, c: string)
    ensures var offered := c + " " in LineOffers(catalog, default, last, [a, b, package, fragment]);
      if !(a <= "class" && b <= "package") then !offered
      else if package in catalog.packages then
        offered <==> fragment <= c && Selected(catalog, default, ["class", "package", package, c]).Some?
      else
        offered <==> fragment <= c && catalog.HasClass(default, c) && exists p :: p in catalog.packages && package <= p
  {
    ClassIsOffered(catalog, if package in catalog.packages then package else default, fragment, c);
    if p :| p in catalog.packages && package <= p {
      assert p + " " in PackageOffers(catalog, package);
    }
  }

  /** Up to the package name completion offers the keywords and the packages that continue the fragment. */
  lemma CompletionBeforeClass(
    catalog: Catalog, default: string, last: string, a: string, b: string, fragment: string, p: string)
    ensures "class " in LineOffers(catalog, default, last, [fragment]) <==> fragment <= "class"
    ensures "package " in LineOffers(catalog, default, last, [a, fragment]) <==>
      && a <= "class"
      && (fragment <= "package" || (exists c :: catalog.HasClass(last, c) && fragment <= c && c + " " == "package "))
    ensures p + " " in LineOffers(catalog, default, last, [a, b, fragment]) <==>
      a <= "class" && b <= "package" && p in catalog.packages && fragment <= p
  {
    if p + " " in PackageOffers(catalog, fragment) {
      var q :| q in catalog.packages && fragment <= q && p + " " == q + " ";
      SpaceIsCut(p, q);
    }
  }

  /** Completing `class package foo` makes the next `class` offer the classes of foo, and not those of the default. */
  lemma ForeignClassOffered()
    ensures var catalog := Catalog({"foo"}, map["foo" := {"A"}, "org" := {"B"}]);
      var last := LastAfter("org", "org", [Completed(catalog, ["class", "package", "foo"])]);
      && last == "foo"
      && "A " in LineOffers(catalog, "org", last, ["class", "A"]) && Selected(catalog, "org", ["class", "A"]).None?
      && "B " !in LineOffers(catalog, "org", last, ["class", "B"]) && Selected(catalog, "org", ["class", "B"]).Some?
  {
    var catalog := Catalog({"foo"}, map["foo" := {"A"}, "org" := {"B"}]);
    var history := [Completed(catalog, ["class", "package", "foo"])];
    assert Init(history) == [] && LastAfter("org", "org", []) == "org";
    assert "class" <= "class" && "package" <= "package";
    ClassIsOffered(catalog, "foo", "A", "A");
    ClassIsOffered(catalog, "foo", "B", "B");
    assert "A" + " " == "A " && "B" + " " == "B ";
  }

  /** Some line selects a class exactly if its package is listed, or is the default one and the class not "package". */
  lemma ClassesAreSelectable(catalog: Catalog, default: string, s: Selection)
    ensures (exists words :: Selected(catalog, default, words) == Some(s)) <==>
      && catalog.HasClass(s.package, s.klass)
      && (s.package in catalog.packages || (s.package == default && s.klass != "package"))
  {
    assert Selected(catalog, default, ["class", "package", s.package, s.klass]) ==
      if s.package in catalog.packages && catalog.HasClass(s.package, s.klass) then Some(s) else None;
    if s.package == default && s.klass != "package" && catalog.HasClass(default, s.klass) {
      assert Selected(catalog, default, ["class", s.klass]) == Some(s);
    }
  }

  // ----- The same line under the general matcher -----

  const SELECT := Keyword(0, "select")
  const CLASS := Keyword(1, "class")
  const GROUP := Opt([Keyword(2, "package"), Param(3)])
  const SELECT_CLASS := [SELECT, CLASS, GROUP, Param(4)]

  /** The package in the shared state when the class of the line is checked. */
  function PackageFor(catalog: Catalog, default: string, words: seq<string>): (package: string) {
    if |words| > 2 && words[1] == "package" && words[2] in catalog.packages then words[2] else default
  }

  /** The converters of the two parameters while the line is read. */
  function Converters(catalog: Catalog, default: string, words: seq<string>): (conv: Converter) {
    (id: nat, w: string) =>
      if id == 3 then w in catalog.packages
      else id == 4 && catalog.HasClass(PackageFor(catalog, default, words), w)
  }

  /** What the handler function makes of its arguments. */
  function Handed(default: string, m: Match): (r: Option<Selection>) {
    if m.Invalid? || m.Endless? || |m.out| != 4 then None
    else if !m.out[2].Group? || |m.out[2].values| != 2 || !m.out[3].Converted? then None
    else
      var package := m.out[2].values[1];
      Some(Selection(if package.Converted? then package.text else default, m.out[3].text))
  }

  lemma GroupCollates(conv: Converter, words: seq<string>)
    requires words != []
    ensures WellFormed(GROUP.args)
    ensures Collate(conv, GROUP.args, words) ==
      if words[0] != "package" || (|words| > 1 && !conv(3, words[1])) then Invalid
      else if |words| == 1 then Stopped([Word("package")])
      else Ok([Word("package"), Converted(3, words[1])], words[2..])
  {
    KeywordThenParameter(conv, GROUP.args[0], GROUP.args[1], words);
  }

  lemma GroupDefault()
    ensures DefaultOf(GROUP) == Group([NoValue, Default(3)])
  {
    var g, one := GROUP.args, [Keyword(2, "package")];
    assert Init(g) == one && Init(one) == [];
    assert Defaults(one) == [NoValue];
  }

  /** The group on the words after "select class". */
  lemma GroupMatches(conv: Converter, words: seq<string>)
    ensures WellFormedArg(GROUP)
    ensures MatchArg(conv, GROUP, words) ==
      if words == [] || words[0] != "package" || (|words| > 1 && !conv(3, words[1])) then
        Ok([Group([NoValue, Default(3)])], words)
      else if |words| == 1 then Ok([Group([Word("package")])], [])
      else Ok([Group([Word("package"), Converted(3, words[1])])], words[2..])
  {
    GroupDefault();
    if words != [] {
      GroupCollates(conv, words);
    }
  }

  lemma NamesMatch(conv: Converter, words: seq<string>)
    ensures WellFormed([SELECT, CLASS])
    ensures Collate(conv, [SELECT, CLASS], ["select"] + words) ==
      if words == [] then Stopped([Word("select")])
      else if words[0] == "class" then Ok([Word("select"), Word("class")], words[1..])
      else Invalid
  {
    var line := ["select"] + words;
    assert Init([SELECT, CLASS]) == [SELECT] && Init([SELECT]) == [];
    assert Collate(conv, [], line) == Ok([], line);
    assert line[1..] == words;
    assert Collate(conv, [SELECT], line) == Ok([Word("select")], words);
  }

  /** Matching of a whole line, argument by argument. */
  lemma LineCollates(conv: Converter, words: seq<string>)
    ensures WellFormed(SELECT_CLASS) && WellFormedArg(GROUP)
    ensures var m := Collate(conv, SELECT_CLASS, ["select"] + words);
      if words == [] then m == Stopped([Word("select")])
      else if words[0] != "class" then m == Invalid
      else
        var group := MatchArg(conv, GROUP, words[1..]);
        group.Ok? && m == Append([Word("select"), Word("class")] + group.out, MatchArg(conv, Param(4), group.rest))
  {
    var three, line := [SELECT, CLASS, GROUP], ["select"] + words;
    assert Init(SELECT_CLASS) == three && Init(three) == [SELECT, CLASS];
    NamesMatch(conv, words);
    if words != [] && words[0] == "class" {
      GroupMatches(conv, words[1..]);
      var group := MatchArg(conv, GROUP, words[1..]);
      assert Collate(conv, three, line) == Ok([Word("select"), Word("class")] + group.out, group.rest);
    }
  }

  /** The class comes last and must be the last word. */
  lemma ClassMatches(conv: Converter, group: seq<Value>, words: seq<string>)
    requires |group| == 1
    ensures var m := Append([Word("select"), Word("class")] + group, MatchArg(conv, Param(4), words));
      if words == [] then m.Stopped? && |m.out| == 3
      else if !conv(4, words[0]) then m.Invalid?
      else m == Ok([Word("select"), Word("class"), group[0], Converted(4, words[0])], words[1..])
  {
  }

  /** A line is accepted if one word follows the group, and that is a class. */
  lemma LineIsCalled(conv: Converter, words: seq<string>)
    requires words != [] && words[0] == "class"
    ensures var group := MatchArg(conv, GROUP, words[1..]);
      && group.Ok? && |group.out| == 1
      && CommandLine.Call(conv, SELECT_CLASS, ["select"] + words) ==
           if |group.rest| == 1 && conv(4, group.rest[0]) then
             Ok([Word("select"), Word("class"), group.out[0], Converted(4, group.rest[0])], [])
           else Invalid
  {
    LineCollates(conv, words);
    GroupMatches(conv, words[1..]);
    var group := MatchArg(conv, GROUP, words[1..]);
    ClassMatches(conv, group.out, group.rest);
  }

  /** The general matcher accepts exactly the lines that select something, and hands on what they select. */
  lemma SelectedIsMatched(catalog: Catalog, default: string, words: seq<string>)
    ensures var conv, line := Converters(catalog, default, words), ["select"] + words;
      && Handed(default, CommandLine.Call(conv, SELECT_CLASS, line)) == Selected(catalog, default, words)
      && (CommandLine.Accepted(conv, SELECT_CLASS, line) <==> Selected(catalog, default, words).Some?)
  {
    var conv := Converters(catalog, default, words);
    if words == [] || words[0] != "class" {
      LineCollates(conv, words);
    } else {
      var rest := words[1..];
      LineIsCalled(conv, words);
      GroupMatches(conv, rest);
      assert forall w :: conv(3, w) <==> w in catalog.packages;
      assert forall w :: conv(4, w) <==> catalog.HasClass(PackageFor(catalog, default, words), w);
      assert forall i :: 0 <= i < |rest| ==> rest[i] == words[i + 1];
    }
  }
}

/**
 D-Bus type signatures ("Type System" in the D-Bus Specification) and the scanner that
 finds where the first complete type of a signature ends.
 */
module Signature {
  datatype Type =
    | Basic(code: char)
    | Variant
    | Array(elem: Type)
    | Struct(fields: seq<Type>)
    | DictEntry(fields: seq<Type>)

  const BASIC_CODES := "ybnqiuxtdsogh"

  predicate Valid(t: Type) {
    match t
    case Basic(c) => c in BASIC_CODES
    case Variant => true
    case Array(e) => Valid(e)
    case Struct(fs) => forall f :: f in fs ==> Valid(f)
    case DictEntry(fs) => |fs| == 2 && forall f :: f in fs ==> Valid(f)
  }

  function Print(t: Type): (s: string)
    ensures s != []
  {
    match t
    case Basic(c) => [c]
    case Variant => "v"
    case Array(e) => "a" + Print(e)
    case Struct(fs) => "(" + PrintAll(fs) + ")"
    case DictEntry(fs) => "{" + PrintAll(fs) + "}"
  }

  function PrintAll(ts: seq<Type>): (s: string)
  {
    if ts == [] then "" else Print(ts[0]) + PrintAll(ts[1..])
  }

  // ----- The scanner -----

  datatype Bracket = Bracket(open: char, close: char)

  const ROUND := Bracket('(', ')')
  const CURLY := Bracket('{', '}')

  function Depth(b: Bracket, c: char, ends: nat): (r: nat)
    requires ends > 0
  {
    if c == b.open then ends + 1 else if c == b.close then ends - 1 else ends
  }

  /** How many characters are read until `ends` brackets of one kind are closed. */
  function Closing(b: Bracket, s: string, ends: nat): (n: nat)
    ensures n <= |s|
  {
    if ends == 0 || s == "" then 0 else 1 + Closing(b, s[1..], Depth(b, s[0], ends))
  }

  function ItemLength(s: string): (n: nat)
    ensures n <= |s|
    ensures n > 0 <==> s != ""
  {
    if s == "" then 0
    else if s[0] == 'a' then 1 + ItemLength(s[1..])
    else if s[0] in "r(" then 1 + Closing(ROUND, s[1..], 1)
    else if s[0] in "e{" then 1 + Closing(CURLY, s[1..], 1)
    else 1
  }

  method GetItemLength(s: string) returns (n: nat)
    ensures n == ItemLength(s)
  {
    if s == "" {
      return 0;
    }
    if s[0] == 'a' {
      var rest := GetItemLength(s[1..]);
      return 1 + rest;
    }
    if s[0] in "r(" {
      n := ScanBrackets(ROUND, s);
    } else if s[0] in "e{" {
      n := ScanBrackets(CURLY, s);
    } else {
      n := 1;
    }
  }

  method ScanBrackets(b: Bracket, s: string) returns (n: nat)
    requires s != ""
    ensures n == 1 + Closing(b, s[1..], 1)
  {
    var ends, pos := 1, 0;
    while ends > 0 && pos + 1 < |s|
      invariant 0 <= pos < |s| && ends >= 0
      invariant Closing(b, s[1..], 1) == pos + Closing(b, s[pos + 1..], ends)
      decreases |s| - pos
    {
      pos := pos + 1;
      if s[pos] == b.open {
        ends := ends + 1;
      } else if s[pos] == b.close {
        ends := ends - 1;
      }
      assert s[pos..][1..] == s[pos + 1..];
    }
    n := pos + 1;
  }

  // ----- A printed type is scanned exactly -----

  ghost predicate IsKind(b: Bracket) {
    b == ROUND || b == CURLY
  }

  /** Inside brackets of either kind, a printed type is passed over as a whole. */
  lemma {:induction false} TypeIsPassed(b: Bracket, t: Type, s: string, ends: nat)
    requires IsKind(b) && Valid(t) && ends > 0
    ensures Closing(b, Print(t) + s, ends) == |Print(t)| + Closing(b, s, ends)
    decreases t, 0
  {
    match t
    case Basic(c) => CharIsPassed(b, c, s, ends);
    case Variant => CharIsPassed(b, 'v', s, ends);
    case Array(e) =>
      assert Print(t) + s == ['a'] + (Print(e) + s);
      CharIsPassed(b, 'a', Print(e) + s, ends);
      TypeIsPassed(b, e, s, ends);
    case Struct(fs) => GroupIsPassed(b, ROUND, fs, s, ends);
    case DictEntry(fs) => GroupIsPassed(b, CURLY, fs, s, ends);
  }

  lemma CharIsPassed(b: Bracket, c: char, s: string, ends: nat)
    requires ends > 0
    ensures Closing(b, [c] + s, ends) == 1 + Closing(b, s, Depth(b, c, ends))
  {
  }

  lemma {:induction false} TypesArePassed(b: Bracket, ts: seq<Type>, s: string, ends: nat)
    requires IsKind(b) && (forall t :: t in ts ==> Valid(t)) && ends > 0
    ensures Closing(b, PrintAll(ts) + s, ends) == |PrintAll(ts)| + Closing(b, s, ends)
    decreases ts, 0
  {
    if ts == [] {
      assert PrintAll(ts) + s == s;
    } else {
      var rest := PrintAll(ts[1..]) + s;
      assert PrintAll(ts) + s == Print(ts[0]) + rest;
      TypeIsPassed(b, ts[0], rest, ends);
      TypesArePassed(b, ts[1..], s, ends);
    }
  }

  lemma {:induction false} GroupIsPassed(b: Bracket, own: Bracket, ts: seq<Type>, s: string, ends: nat)
    requires IsKind(b) && IsKind(own) && (forall t :: t in ts ==> Valid(t)) && ends > 0
    ensures var p := [own.open] + PrintAll(ts) + [own.close];
      Closing(b, p + s, ends) == |p| + Closing(b, s, ends)
    decreases ts, 1
  {
    var p := [own.open] + PrintAll(ts) + [own.close];
    var tail := [own.close] + s;
    assert p + s == [own.open] + (PrintAll(ts) + tail);
    var inner := Depth(b, own.open, ends);
    CharIsPassed(b, own.open, PrintAll(ts) + tail, ends);
    TypesArePassed(b, ts, tail, inner);
    CharIsPassed(b, own.close, s, inner);
  }

  /** The length found for a complete type is its own, whatever follows it. */
  lemma {:induction false} ItemLengthIsExact(t: Type, s: string)
    requires Valid(t)
    ensures ItemLength(Print(t) + s) == |Print(t)|
  {
    var all := Print(t) + s;
    match t
    case Array(e) =>
      assert all[1..] == Print(e) + s;
      ItemLengthIsExact(e, s);
    case Struct(fs) => GroupLengthIsExact(ROUND, fs, s);
    case DictEntry(fs) => GroupLengthIsExact(CURLY, fs, s);
    case _ =>
  }

  lemma GroupLengthIsExact(own: Bracket, ts: seq<Type>, s: string)
    requires IsKind(own) && forall t :: t in ts ==> Valid(t)
    ensures var p := [own.open] + PrintAll(ts) + [own.close];
      ItemLength(p + s) == |p|
  {
    var p := [own.open] + PrintAll(ts) + [own.close];
    var tail := [own.close] + s;
    assert (p + s)[1..] == PrintAll(ts) + tail;
    TypesArePassed(own, ts, tail, 1);
    CharIsPassed(own, own.close, s, 1);
  }
}

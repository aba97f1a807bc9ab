/**
 The basic types one by one: which values are written under each code, what is written, and as
 what it is read, with the numbers spelled out.
 */
module BasicTypes {
  import opened Common
  import opened Signature
  import opened Marshalling
  import opened RoundTrip

  /** Integers are written under an integer code exactly if they are in its range. */
  lemma IntegersWritten(k: IntKind, n: int)
    ensures Encode(Int(k, n), "y") == if 0 <= n < 0x100 then Some(Leaf('y', PInt(n))) else None
    ensures Encode(Int(k, n), "n") == if -0x8000 <= n < 0x8000 then Some(Leaf('n', PInt(n))) else None
    ensures Encode(Int(k, n), "q") == if 0 <= n < 0x1_0000 then Some(Leaf('q', PInt(n))) else None
    ensures Encode(Int(k, n), "i") == if -0x8000_0000 <= n < 0x8000_0000 then Some(Leaf('i', PInt(n))) else None
  {
  }

  lemma WideIntegersWritten(k: IntKind, n: int)
    ensures Encode(Int(k, n), "u") == if 0 <= n < 0x1_0000_0000 then Some(Leaf('u', PInt(n))) else None
    ensures Encode(Int(k, n), "x") ==
      if -0x8000_0000_0000_0000 <= n < 0x8000_0000_0000_0000 then Some(Leaf('x', PInt(n))) else None
    ensures Encode(Int(k, n), "t") == if 0 <= n < 0x1_0000_0000_0000_0000 then Some(Leaf('t', PInt(n))) else None
  {
  }

  /** Under a double and under a variant an integer must fit 64 signed bits. */
  lemma IntegersConverted(k: IntKind, n: int)
    ensures var fits := -0x8000_0000_0000_0000 <= n < 0x8000_0000_0000_0000;
      && Encode(Int(k, n), "d") == (if fits then Some(Leaf('d', PDouble(OfInt(n)))) else None)
      && Encode(Int(k, n), "v") == Some(if fits then VariantNode("x", [Leaf('x', PInt(n))]) else VariantNode("", []))
  {
  }

  /** Other simple values are written under their own code and in a variant, and under no other basic code. */
  lemma SimpleValuesWritten(b: bool, bits: nat, d: Real64, s: string, c: char)
    requires c in BASIC_CODES
    ensures Encode(Bool(b), [c]) == if c == 'b' then Some(Leaf('b', PBool(b))) else None
    ensures Encode(Float(bits), [c]) == if c == 'd' then Some(Leaf('d', PDouble(OfFloat(bits)))) else None
    ensures Encode(Double(d), [c]) == if c == 'd' then Some(Leaf('d', PDouble(d))) else None
    ensures Encode(Str(s), [c]) == if c == 's' then Some(Leaf('s', PStr(s))) else None
    ensures Encode(Bool(b), "v") == Some(VariantNode("b", [Leaf('b', PBool(b))]))
    ensures Encode(Float(bits), "v") == Some(VariantNode("d", [Leaf('d', PDouble(OfFloat(bits)))]))
    ensures Encode(Double(d), "v") == Some(VariantNode("d", [Leaf('d', PDouble(d))]))
    ensures Encode(Str(s), "v") == Some(VariantNode("s", [Leaf('s', PStr(s))]))
  {
  }

  /** Strings, paths, signatures and descriptors take no integer; nothing takes a list or nothing at all. */
  lemma RefusedValues(k: IntKind, n: int, vs: seq<Value>, c: char)
    requires c in BASIC_CODES
    ensures c in "bsogh" ==> Encode(Int(k, n), [c]) == None
    ensures Encode(List(vs), [c]) == None && Encode(Void, [c]) == None && Encode(Other, [c]) == None
  {
  }

  /** Each code is read as the type of its own width. */
  lemma BasicsRead(n: int, b: bool, d: Real64, s: string)
    ensures Decode(Leaf('y', PInt(n))) == Int(IntKind(8, false), n)
    ensures Decode(Leaf('n', PInt(n))) == Int(IntKind(16, true), n)
    ensures Decode(Leaf('q', PInt(n))) == Int(IntKind(16, false), n)
    ensures Decode(Leaf('i', PInt(n))) == Int(IntKind(32, true), n)
    ensures Decode(Leaf('u', PInt(n))) == Int(IntKind(32, false), n)
    ensures Decode(Leaf('x', PInt(n))) == Int(IntKind(64, true), n)
    ensures Decode(Leaf('t', PInt(n))) == Int(IntKind(64, false), n)
    ensures Decode(Leaf('b', PBool(b))) == Bool(b) && Decode(Leaf('d', PDouble(d))) == Double(d)
    ensures Decode(Leaf('s', PStr(s))) == Decode(Leaf('o', PStr(s))) == Str(s) && Decode(Leaf('g', PStr(s))) == Void
  {
  }

  // ----- Signatures that are no types -----

  /** Only what follows the first character steers the members of a structure. */
  lemma {:induction false} FieldsIgnoreFirst(vs: seq<Value>, a: string, b: string, start: nat)
    requires a != "" && b != "" && a[1..] == b[1..] && 1 <= start <= |a|
    ensures |a| == |b| && EncodeFields(vs, a, start) == EncodeFields(vs, b, start)
    decreases |vs|
  {
    assert |a| == |a[1..]| + 1 && |b| == |b[1..]| + 1;
    if vs != [] {
      SamePiece(a, b, start);
      FirstField(vs, a, start);
      FirstField(vs, b, start);
      FieldsIgnoreFirst(vs[1..], a, b, start + ItemLength(a[start..]));
    }
  }

  lemma SamePiece(a: string, b: string, start: nat)
    requires a != "" && b != "" && |a| == |b| && a[1..] == b[1..] && 1 <= start <= |a|
    ensures a[start..] == b[start..]
    ensures forall end :: start <= end <= |a| ==> a[start..end] == b[start..end]
  {
    assert forall i :: start <= i < |a| ==> a[i] == a[1..][i - 1] && b[i] == b[1..][i - 1];
  }

  /** The bare codes of structures and entries are read like an opening brace, and write an entry. */
  lemma BareCodes(v: Value, rest: string)
    ensures Encode(v, "r" + rest) == Encode(v, "{" + rest) == Encode(v, "e" + rest)
    ensures Encode(v, "") == None
  {
    if v.List? {
      assert ("r" + rest)[1..] == rest && ("{" + rest)[1..] == rest && ("e" + rest)[1..] == rest;
      FieldsIgnoreFirst(v.items, "r" + rest, "{" + rest, 1);
      FieldsIgnoreFirst(v.items, "e" + rest, "{" + rest, 1);
    }
  }

  // ----- Brackets on any string -----

  /** Opening brackets of one kind less closing ones. */
  function Balance(b: Bracket, s: string): (n: int) {
    if s == "" then 0
    else
      Balance(b, s[..|s| - 1]) +
      if s[|s| - 1] == b.open then 1 else if s[|s| - 1] == b.close then -1 else 0
  }

  lemma {:induction false} BalanceConcat(b: Bracket, s: string, t: string)
    ensures Balance(b, s + t) == Balance(b, s) + Balance(b, t)
  {
    if t == "" {
      assert s + t == s;
    } else {
      var init := t[..|t| - 1];
      BalanceConcat(b, s, init);
      assert (s + t)[..|s + t| - 1] == s + init && (s + t)[|s + t| - 1] == t[|t| - 1];
    }
  }

  lemma BalanceOfOne(b: Bracket, c: char)
    ensures Balance(b, [c]) == if c == b.open then 1 else if c == b.close then -1 else 0
  {
    assert [c][..0] == "";
  }

  /** Reading stops at the first place where the brackets balance, or at the end. */
  lemma {:induction false} ClosesAtBalance(b: Bracket, s: string, ends: nat)
    requires b.open != b.close
    ensures var n := Closing(b, s, ends);
      && n <= |s| && (ends + Balance(b, s[..n]) == 0 || n == |s|)
      && forall j :: 0 <= j < n ==> ends + Balance(b, s[..j]) > 0
  {
    if ends > 0 && s != "" {
      var next, n := Depth(b, s[0], ends), Closing(b, s, ends);
      ClosesAtBalance(b, s[1..], next);
      BalanceOfOne(b, s[0]);
      forall j | 0 < j <= |s|
        ensures ends + Balance(b, s[..j]) == next + Balance(b, s[1..][..j - 1])
      {
        assert s[..j] == [s[0]] + s[1..][..j - 1];
        BalanceConcat(b, [s[0]], s[1..][..j - 1]);
      }
    }
  }

  /** The kind of bracket an item begins with, or its bare code. */
  predicate Opens(s: string, b: Bracket) {
    s != "" && ((b == ROUND && s[0] in "r(") || (b == CURLY && s[0] in "e{"))
  }

  lemma ItemIsClosing(s: string, b: Bracket)
    requires Opens(s, b)
    ensures ItemLength(s) == 1 + Closing(b, s[1..], 1)
  {
  }

  /** The first `n` characters bring the balance to zero, or are all there are; fewer do not. */
  ghost predicate BalancesAt(b: Bracket, s: string, n: nat) {
    && n <= |s| && (1 + Balance(b, s[..n]) == 0 || n == |s|)
    && forall j :: 0 <= j < n ==> 1 + Balance(b, s[..j]) > 0
  }

  /**
   On any string that begins with a bracket or its bare code, the item ends where that kind of
   bracket balances for the first time, or with the string.
   */
  lemma ItemEndsAtBalance(s: string, b: Bracket)
    requires Opens(s, b)
    ensures ItemLength(s) > 0 && BalancesAt(b, s[1..], ItemLength(s) - 1)
  {
    ItemIsClosing(s, b);
    ClosesFirst(b, s[1..]);
  }

  lemma ClosesFirst(b: Bracket, s: string)
    requires b.open != b.close
    ensures BalancesAt(b, s, Closing(b, s, 1))
  {
    ClosesAtBalance(b, s, 1);
  }

  /** An array takes one character more than its element; any other character is an item of its own. */
  lemma OtherItems(s: string)
    requires s != "" && s[0] !in "r(e{"
    ensures ItemLength(s) == if s[0] == 'a' then 1 + ItemLength(s[1..]) else 1
  {
  }
}

/**
 Moving values from QMF to D-Bus: the encoder directed by the characters of a signature, and the
 proof that it does what the type printed as that signature says.

 A D-Bus message is a tree of typed values; an iterator that is appended to is the list of
 values written at one level of that tree.
 */
module Marshalling {
  import opened Common
  import opened Signature

  /** A double: one given as such, one converted from an integer, one widened from a float. */
  datatype Real64 = Given(bits: nat) | OfInt(n: int) | OfFloat(bits: nat)

  datatype IntKind = IntKind(bits: nat, signed: bool)

  const U8 := IntKind(8, false)
  const S16 := IntKind(16, true)
  const U16 := IntKind(16, false)
  const S32 := IntKind(32, true)
  const U32 := IntKind(32, false)
  const S64 := IntKind(64, true)
  const U64 := IntKind(64, false)

  datatype Value =
    | Void
    | Bool(b: bool)
    | Int(kind: IntKind, n: int)
    | Float(bits: nat)
    | Double(d: Real64)
    | Str(s: string)
    | List(items: seq<Value>)
    | Other

  datatype Payload = PBool(b: bool) | PInt(n: int) | PDouble(d: Real64) | PStr(s: string)

  datatype Node =
    | Leaf(code: char, payload: Payload)
    | ArrayNode(elemSignature: string, elems: seq<Node>)
    | StructNode(members: seq<Node>)
    | EntryNode(members: seq<Node>)
    | VariantNode(signature: string, content: seq<Node>)

  // ----- Single values -----

  /** The integer type a signature code stands for. */
  function KindOf(code: char): (k: Option<IntKind>) {
    match code
    case 'y' => Some(U8)
    case 'n' => Some(S16)
    case 'q' => Some(U16)
    case 'i' => Some(S32)
    case 'u' => Some(U32)
    case 'x' => Some(S64)
    case 't' => Some(U64)
    case _ => None
  }

  function Limit(bits: nat): (r: int) {
    match bits
    case 8 => 0x100
    case 16 => 0x1_0000
    case 32 => 0x1_0000_0000
    case 64 => 0x1_0000_0000_0000_0000
    case _ => 0
  }

  predicate InRange(k: IntKind, n: int) {
    if k.signed then -(Limit(k.bits) / 2) <= n < Limit(k.bits) / 2 else 0 <= n < Limit(k.bits)
  }

  /** Conversion of a simple value to an expected code; integers that do not fit are refused. */
  function ToBasic(v: Value, expected: char): (r: Option<Node>) {
    match v
    case Bool(b) => if expected in "bv" then Some(Leaf('b', PBool(b))) else None
    case Int(_, n) =>
      if expected in "dv" then
        if !InRange(S64, n) then None
        else if expected == 'd' then Some(Leaf('d', PDouble(OfInt(n)))) else Some(Leaf('x', PInt(n)))
      else
        (match KindOf(expected)
         case Some(k) => if InRange(k, n) then Some(Leaf(expected, PInt(n))) else None
         case None => None)
    case Float(bits) => if expected in "dv" then Some(Leaf('d', PDouble(OfFloat(bits)))) else None
    case Double(d) => if expected in "dv" then Some(Leaf('d', PDouble(d))) else None
    case Str(s) => if expected in "sv" then Some(Leaf('s', PStr(s))) else None
    case _ => None
  }

  /** A failed conversion is not noticed under a variant: an empty one is written. */
  function ToVariant(v: Value): (n: Node) {
    match ToBasic(v, 'v')
    case Some(leaf) => VariantNode([leaf.code], [leaf])
    case None => VariantNode("", [])
  }

  // ----- The encoder, directed by the signature -----

  function Encode(v: Value, sig: string): (r: Option<Node>)
    decreases |sig|, 1, 0
  {
    if sig == "" then None
    else if sig[0] == 'a' then
      if !v.List? then None
      else
        match EncodeEach(v.items, sig[1..])
        case Some(ns) => Some(ArrayNode(sig[1..], ns))
        case None => None
    else if sig[0] in "r(e{" then
      if !v.List? then None
      else
        match EncodeFields(v.items, sig, 1)
        case Some(ns) => Some(if sig[0] == '(' then StructNode(ns) else EntryNode(ns))
        case None => None
    else if sig[0] == 'v' then Some(ToVariant(v))
    else ToBasic(v, sig[0])
  }

  function EncodeEach(vs: seq<Value>, sig: string): (r: Option<seq<Node>>)
    decreases |sig|, 2, |vs|
  {
    if vs == [] then Some([])
    else Cons(Encode(vs[0], sig), EncodeEach(vs[1..], sig))
  }

  /** The node for a value under the complete type that starts at the cursor. */
  function FieldAt(v: Value, sig: string, start: nat): (r: Option<Node>)
    requires 1 <= start <= |sig|
    decreases |sig|, 0, 0
  {
    var len := ItemLength(sig[start..]);
    if len < 1 then None else Encode(v, sig[start..start + len])
  }

  /** One complete type after another is cut from the signature, for as long as there are values. */
  function EncodeFields(vs: seq<Value>, sig: string, start: nat): (r: Option<seq<Node>>)
    requires 1 <= start <= |sig|
    decreases |sig|, 0, |vs| + 1
  {
    if vs == [] then Some([])
    else
      Cons(FieldAt(vs[0], sig, start), EncodeFields(vs[1..], sig, start + ItemLength(sig[start..])))
  }

  function Cons(n: Option<Node>, ns: Option<seq<Node>>): (r: Option<seq<Node>>) {
    if n.Some? && ns.Some? then Some([n.value] + ns.value) else None
  }

  class Container {
    var items: seq<Node>

    constructor ()
      ensures items == []
    {
      items := [];
    }
  }

  method AddArg(out: Container, v: Value, sig: string) returns (ok: bool)
    modifies out
    ensures ok <==> Encode(v, sig).Some?
    ensures ok ==> out.items == old(out.items) + [Encode(v, sig).value]
    decreases |sig|, 1
  {
    if sig == "" {
      return false;
    }
    var node;
    if sig[0] == 'a' {
      if !v.List? {
        return false;
      }
      var sub := new Container();
      ok := AddElements(sub, v.items, sig[1..]);
      node := ArrayNode(sig[1..], sub.items);
    } else if sig[0] in "r(e{" {
      if !v.List? {
        return false;
      }
      var sub := new Container();
      ok := AddFields(sub, v.items, sig);
      node := if sig[0] == '(' then StructNode(sub.items) else EntryNode(sub.items);
    } else if sig[0] == 'v' {
      ok := true;
      node := ToVariant(v);
    } else {
      var leaf := ToBasic(v, sig[0]);
      if leaf.None? {
        return false;
      }
      ok := true;
      node := leaf.value;
    }
    if ok {
      out.items := out.items + [node];
    }
  }

  /** The elements of an array, each written under the rest of the signature. */
  method AddElements(sub: Container, vs: seq<Value>, sig: string) returns (ok: bool)
    requires sub.items == []
    modifies sub
    ensures ok <==> EncodeEach(vs, sig).Some?
    ensures ok ==> sub.items == EncodeEach(vs, sig).value
    decreases |sig|, 2
  {
    assert vs[0..] == vs;
    PrependNothing(EncodeEach(vs, sig));
    for i := 0 to |vs|
      invariant EncodeEach(vs, sig) == Prepend(sub.items, EncodeEach(vs[i..], sig))
    {
      assert vs[i..][0] == vs[i] && vs[i..][1..] == vs[i + 1..];
      ghost var before := sub.items;
      var added := AddArg(sub, vs[i], sig);
      if !added {
        return false;
      }
      PrependOne(before, Encode(vs[i], sig).value, EncodeEach(vs[i + 1..], sig));
    }
    assert sub.items + [] == sub.items;
    ok := true;
  }

  /** The members of a structure or dictionary entry, with a cursor moving over the signature. */
  method AddFields(sub: Container, vs: seq<Value>, sig: string) returns (ok: bool)
    requires sub.items == [] && sig != ""
    modifies sub
    ensures ok <==> EncodeFields(vs, sig, 1).Some?
    ensures ok ==> sub.items == EncodeFields(vs, sig, 1).value
    decreases |sig|, 0, 1
  {
    var start := 1;
    assert vs[0..] == vs;
    PrependNothing(EncodeFields(vs, sig, 1));
    for i := 0 to |vs|
      invariant 1 <= start <= |sig|
      invariant EncodeFields(vs, sig, 1) == Prepend(sub.items, EncodeFields(vs[i..], sig, start))
    {
      ghost var before, at := sub.items, start;
      ok, start := AddField(sub, vs[i], sig, start);
      NextField(vs, i, sig, at);
      if !ok {
        return;
      }
      PrependOne(before, FieldAt(vs[i], sig, at).value, EncodeFields(vs[i + 1..], sig, start));
    }
    assert sub.items + [] == sub.items;
    ok := true;
  }

  method AddField(sub: Container, v: Value, sig: string, start: nat) returns (ok: bool, next: nat)
    requires 1 <= start <= |sig|
    modifies sub
    ensures ok <==> FieldAt(v, sig, start).Some?
    ensures ok ==> sub.items == old(sub.items) + [FieldAt(v, sig, start).value]
    ensures start <= next == start + ItemLength(sig[start..]) <= |sig|
    decreases |sig|, 0, 0
  {
    var len := GetItemLength(sig[start..]);
    next := start + len;
    if len < 1 {
      return false, next;
    }
    ok := AddArg(sub, v, sig[start..next]);
  }

  lemma NextField(vs: seq<Value>, i: nat, sig: string, start: nat)
    requires i < |vs| && 1 <= start <= |sig|
    ensures EncodeFields(vs[i..], sig, start) ==
            Cons(FieldAt(vs[i], sig, start), EncodeFields(vs[i + 1..], sig, start + ItemLength(sig[start..])))
  {
    var tail := vs[i..];
    assert tail[0] == vs[i] && tail[1..] == vs[i + 1..];
    FirstField(tail, sig, start);
  }

  lemma FirstField(vs: seq<Value>, sig: string, start: nat)
    requires vs != [] && 1 <= start <= |sig|
    ensures EncodeFields(vs, sig, start) ==
            Cons(FieldAt(vs[0], sig, start), EncodeFields(vs[1..], sig, start + ItemLength(sig[start..])))
  {
  }

  ghost function Prepend(ns: seq<Node>, rest: Option<seq<Node>>): (r: Option<seq<Node>>) {
    if rest.Some? then Some(ns + rest.value) else None
  }

  lemma PrependNothing(rest: Option<seq<Node>>)
    ensures Prepend([], rest) == rest
  {
    assert rest.Some? ==> [] + rest.value == rest.value;
  }

  lemma PrependOne(ns: seq<Node>, n: Node, rest: Option<seq<Node>>)
    ensures Prepend(ns, Cons(Some(n), rest)) == Prepend(ns + [n], rest)
  {
    assert rest.Some? ==> ns + ([n] + rest.value) == ns + [n] + rest.value;
  }

  // ----- The same encoder, directed by the type -----

  function EncodeTyped(t: Type, v: Value): (r: Option<Node>)
    decreases t, 0
  {
    match t
    case Basic(c) => ToBasic(v, c)
    case Variant => Some(ToVariant(v))
    case Array(e) =>
      if !v.List? then None
      else
        (match TypedEach(e, v.items)
         case Some(ns) => Some(ArrayNode(Print(e), ns))
         case None => None)
    case Struct(fs) =>
      if !v.List? then None
      else
        (match TypedFields(fs, v.items)
         case Some(ns) => Some(StructNode(ns))
         case None => None)
    case DictEntry(fs) =>
      if !v.List? then None
      else
        (match TypedFields(fs, v.items)
         case Some(ns) => Some(EntryNode(ns))
         case None => None)
  }

  function TypedEach(t: Type, vs: seq<Value>): (r: Option<seq<Node>>)
    decreases t, 1, |vs|
  {
    if vs == [] then Some([]) else Cons(EncodeTyped(t, vs[0]), TypedEach(t, vs[1..]))
  }

  /** A list shorter than the fields is taken; a longer one is refused. */
  function TypedFields(fs: seq<Type>, vs: seq<Value>): (r: Option<seq<Node>>)
    decreases fs, 0
  {
    if vs == [] then Some([])
    else if fs == [] then None
    else Cons(EncodeTyped(fs[0], vs[0]), TypedFields(fs[1..], vs[1..]))
  }

  /** What the bytes of a signature mean to the encoder: exactly the type they print. */
  lemma {:induction false} EncodesByType(t: Type, v: Value)
    requires Valid(t)
    ensures Encode(v, Print(t)) == EncodeTyped(t, v)
    decreases t, 0
  {
    var sig := Print(t);
    match t
    case Basic(c) =>
    case Variant =>
    case Array(e) =>
      assert sig[1..] == Print(e);
      if v.List? {
        EachByType(e, v.items);
      }
    case Struct(fs) =>
      if v.List? {
        FieldsByType(fs, v.items, sig, 1, ')');
      }
    case DictEntry(fs) =>
      if v.List? {
        FieldsByType(fs, v.items, sig, 1, '}');
      }
  }

  lemma {:induction false} EachByType(t: Type, vs: seq<Value>)
    requires Valid(t)
    ensures EncodeEach(vs, Print(t)) == TypedEach(t, vs)
    decreases t, 1, |vs|
  {
    if vs != [] {
      EncodesByType(t, vs[0]);
      EachByType(t, vs[1..]);
    }
  }

  /**
   Cutting the signature field by field: the piece for each value is one complete type, and
   the piece for a surplus value is the closing bracket, which no value can be converted to.
   */
  lemma {:induction false} FieldsByType(fs: seq<Type>, vs: seq<Value>, sig: string, start: nat, close: char)
    requires (forall f :: f in fs ==> Valid(f)) && close in ")}"
    requires 1 <= start <= |sig| && sig[start..] == PrintAll(fs) + [close]
    ensures EncodeFields(vs, sig, start) == TypedFields(fs, vs)
    decreases fs, 0
  {
    if vs != [] {
      if fs == [] {
        BracketIsRefused(vs, sig, start, close);
      } else {
        FieldIsCut(fs, sig, start, close);
        EncodesByType(fs[0], vs[0]);
        FieldsByType(fs[1..], vs[1..], sig, start + |Print(fs[0])|, close);
        FirstField(vs, sig, start);
      }
    }
  }

  lemma BracketIsRefused(vs: seq<Value>, sig: string, start: nat, close: char)
    requires vs != [] && close in ")}" && 1 <= start <= |sig| && sig[start..] == [close]
    ensures EncodeFields(vs, sig, start) == None
  {
    assert sig[start..start + 1] == [close];
    assert Encode(vs[0], [close]) == None;
    FirstField(vs, sig, start);
  }

  lemma FieldIsCut(fs: seq<Type>, sig: string, start: nat, close: char)
    requires fs != [] && Valid(fs[0])
    requires start <= |sig| && sig[start..] == PrintAll(fs) + [close]
    ensures ItemLength(sig[start..]) == |Print(fs[0])|
    ensures start + |Print(fs[0])| <= |sig|
    ensures sig[start..start + |Print(fs[0])|] == Print(fs[0])
    ensures sig[start + |Print(fs[0])|..] == PrintAll(fs[1..]) + [close]
  {
    var rest := PrintAll(fs[1..]) + [close];
    assert sig[start..] == Print(fs[0]) + rest;
    ItemLengthIsExact(fs[0], rest);
    CutPiece(sig, start, Print(fs[0]), rest);
  }

  lemma CutPiece(sig: string, start: nat, piece: string, rest: string)
    requires start <= |sig| && sig[start..] == piece + rest
    ensures start + |piece| <= |sig|
    ensures sig[start..start + |piece|] == piece && sig[start + |piece|..] == rest
  {
  }
}

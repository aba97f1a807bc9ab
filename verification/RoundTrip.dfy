/**
 Which values can be written under a type, what is written for them, and what is read back.
 */
module RoundTrip {
  import opened Common
  import opened Signature
  import opened Marshalling

  // ----- The decoder -----

  function Decode(n: Node): (v: Value)
    decreases n, 0
  {
    match n
    case Leaf(c, p) => DecodeLeaf(c, p)
    case ArrayNode(_, ns) => List(DecodeAll(ns))
    case StructNode(ns) => List(DecodeAll(ns))
    case EntryNode(ns) => List(DecodeAll(ns))
    case VariantNode(_, ns) => if ns == [] then Void else Decode(ns[0])
  }

  function DecodeAll(ns: seq<Node>): (vs: seq<Value>)
    ensures |vs| == |ns| && forall i :: 0 <= i < |ns| ==> vs[i] == Decode(ns[i])
    decreases ns, 0
  {
    if ns == [] then [] else DecodeAll(ns[..|ns| - 1]) + [Decode(ns[|ns| - 1])]
  }

  function DecodeLeaf(c: char, p: Payload): (v: Value) {
    match p
    case PBool(b) => if c == 'b' then Bool(b) else Void
    case PInt(n) => if KindOf(c).Some? then Int(KindOf(c).value, n) else Void
    case PDouble(d) => if c == 'd' then Double(d) else Void
    case PStr(s) => if c in "os" then Str(s) else Void
  }

  method ReadNode(n: Node) returns (v: Value)
    ensures v == Decode(n)
    decreases n, 0
  {
    match n
    case Leaf(c, p) => v := DecodeLeaf(c, p);
    case VariantNode(_, ns) =>
      if ns == [] {
        v := Void;
      } else {
        v := ReadNode(ns[0]);
      }
    case ArrayNode(_, ns) => v := ReadMembers(ns);
    case StructNode(ns) => v := ReadMembers(ns);
    case EntryNode(ns) => v := ReadMembers(ns);
  }

  method ReadMembers(ns: seq<Node>) returns (v: Value)
    ensures v == List(DecodeAll(ns))
    decreases ns, 0
  {
    var l := [];
    for i := 0 to |ns|
      invariant l == DecodeAll(ns[..i])
    {
      var next := ReadNode(ns[i]);
      assert ns[..i + 1][..i] == ns[..i];
      l := l + [next];
    }
    assert ns[..|ns|] == ns;
    v := List(l);
  }

  // ----- Values that fit a type, and nodes that have it -----

  ghost predicate Fits(t: Type, v: Value) {
    match t
    case Basic(c) =>
      (match v
       case Bool(_) => c == 'b'
       case Int(_, n) => if c == 'd' then InRange(S64, n) else KindOf(c).Some? && InRange(KindOf(c).value, n)
       case Float(_) => c == 'd'
       case Double(_) => c == 'd'
       case Str(_) => c == 's'
       case _ => false)
    case Variant => v.Bool? || v.Float? || v.Double? || v.Str? || (v.Int? && InRange(S64, v.n))
    case Array(e) => v.List? && forall i :: 0 <= i < |v.items| ==> Fits(e, v.items[i])
    case Struct(fs) => v.List? && FitsAll(fs, v.items)
    case DictEntry(fs) => v.List? && FitsAll(fs, v.items)
  }

  ghost predicate FitsAll(fs: seq<Type>, vs: seq<Value>) {
    |fs| == |vs| && forall i :: 0 <= i < |fs| ==> Fits(fs[i], vs[i])
  }

  /**
   Values the encoder reports success for. They include lists with too few values for a
   structure or entry, and under a variant everything.
   */
  ghost predicate Takes(t: Type, v: Value) {
    match t
    case Basic(_) => Fits(t, v)
    case Variant => true
    case Array(e) => v.List? && forall i :: 0 <= i < |v.items| ==> Takes(e, v.items[i])
    case Struct(fs) => v.List? && TakesAll(fs, v.items)
    case DictEntry(fs) => v.List? && TakesAll(fs, v.items)
  }

  ghost predicate TakesAll(fs: seq<Type>, vs: seq<Value>) {
    |vs| <= |fs| && forall i :: 0 <= i < |vs| ==> Takes(fs[i], vs[i])
  }

  ghost predicate HasType(n: Node, t: Type)
    decreases t
  {
    match t
    case Basic(c) => n.Leaf? && n.code == c && PayloadHasCode(n.payload, c)
    case Variant =>
      && n.VariantNode? && |n.content| == 1 && n.content[0].Leaf?
      && n.signature == [n.content[0].code] && PayloadHasCode(n.content[0].payload, n.content[0].code)
    case Array(e) =>
      && n.ArrayNode? && n.elemSignature == Print(e)
      && forall i :: 0 <= i < |n.elems| ==> HasType(n.elems[i], e)
    case Struct(fs) => n.StructNode? && HasTypes(n.members, fs)
    case DictEntry(fs) => n.EntryNode? && HasTypes(n.members, fs)
  }

  ghost predicate HasTypes(ns: seq<Node>, fs: seq<Type>)
    decreases fs
  {
    |ns| == |fs| && forall i :: 0 <= i < |fs| ==> HasType(ns[i], fs[i])
  }

  ghost predicate PayloadHasCode(p: Payload, c: char) {
    match p
    case PBool(_) => c == 'b'
    case PInt(n) => KindOf(c).Some? && InRange(KindOf(c).value, n)
    case PDouble(_) => c == 'd'
    case PStr(_) => c in "sog"
  }

  // ----- The type is kept exactly when the value fits it -----

  /**
   A message of exactly the declared type is written if and only if the value fits. Values
   that do not fit are refused, or leave a structure short, or leave a variant empty.
   */
  lemma {:induction false} WritesDeclaredType(t: Type, v: Value)
    requires Valid(t)
    ensures (Encode(v, Print(t)).Some? && HasType(Encode(v, Print(t)).value, t)) <==> Fits(t, v)
  {
    EncodesByType(t, v);
    TypedWrites(t, v);
  }

  lemma {:induction false} TypedWrites(t: Type, v: Value)
    ensures (EncodeTyped(t, v).Some? && HasType(EncodeTyped(t, v).value, t)) <==> Fits(t, v)
    decreases t, 0
  {
    match t
    case Basic(c) =>
    case Variant =>
    case Array(e) =>
      if v.List? {
        EachWrites(e, v.items);
      }
    case Struct(fs) =>
      if v.List? {
        FieldsWrite(fs, v.items);
      }
    case DictEntry(fs) =>
      if v.List? {
        FieldsWrite(fs, v.items);
      }
  }

  lemma {:induction false} EachWrites(t: Type, vs: seq<Value>)
    ensures var r := TypedEach(t, vs);
      (r.Some? && forall i :: 0 <= i < |r.value| ==> HasType(r.value[i], t)) <==>
      (forall i :: 0 <= i < |vs| ==> Fits(t, vs[i]))
    decreases t, 1, |vs|
  {
    if vs != [] {
      TypedWrites(t, vs[0]);
      EachWrites(t, vs[1..]);
      var head, tail := EncodeTyped(t, vs[0]), TypedEach(t, vs[1..]);
      assert vs == [vs[0]] + vs[1..];
      if head.Some? && tail.Some? {
        var all := [head.value] + tail.value;
        assert all[0] == head.value && all[1..] == tail.value;
        if forall i :: 0 <= i < |all| ==> HasType(all[i], t) {
          assert forall i :: 0 <= i < |tail.value| ==> tail.value[i] == all[i + 1];
        }
      }
    }
  }

  lemma {:induction false} FieldsWrite(fs: seq<Type>, vs: seq<Value>)
    ensures var r := TypedFields(fs, vs);
      (r.Some? && HasTypes(r.value, fs)) <==> FitsAll(fs, vs)
    decreases fs, 0
  {
    if fs != [] && vs != [] {
      TypedWrites(fs[0], vs[0]);
      FieldsWrite(fs[1..], vs[1..]);
      assert fs == [fs[0]] + fs[1..] && vs == [vs[0]] + vs[1..];
      var head, tail := EncodeTyped(fs[0], vs[0]), TypedFields(fs[1..], vs[1..]);
      if head.Some? && tail.Some? {
        HasTypesCons(head.value, tail.value, fs);
      }
      FitsAllCons(fs, vs);
    }
  }

  lemma HasTypesCons(n: Node, ns: seq<Node>, fs: seq<Type>)
    requires fs != []
    ensures HasTypes([n] + ns, fs) <==> HasType(n, fs[0]) && HasTypes(ns, fs[1..])
  {
  }

  lemma FitsAllCons(fs: seq<Type>, vs: seq<Value>)
    requires fs != [] && vs != []
    ensures FitsAll(fs, vs) <==> Fits(fs[0], vs[0]) && FitsAll(fs[1..], vs[1..])
  {
  }

  // ----- When success is reported -----

  /** Success is reported exactly for the values taken. */
  lemma SuccessIfTaken(t: Type, v: Value)
    requires Valid(t)
    ensures Encode(v, Print(t)).Some? <==> Takes(t, v)
  {
    EncodesByType(t, v);
    TypedTakes(t, v);
  }

  lemma {:induction false} TypedTakes(t: Type, v: Value)
    requires Valid(t)
    ensures EncodeTyped(t, v).Some? <==> Takes(t, v)
    decreases t, 0
  {
    match t
    case Array(e) =>
      if v.List? {
        EachTakes(e, v.items);
      }
    case Struct(fs) =>
      if v.List? {
        FieldsTake(fs, v.items);
      }
    case DictEntry(fs) =>
      if v.List? {
        FieldsTake(fs, v.items);
      }
    case _ =>
  }

  lemma {:induction false} EachTakes(t: Type, vs: seq<Value>)
    requires Valid(t)
    ensures TypedEach(t, vs).Some? <==> forall i :: 0 <= i < |vs| ==> Takes(t, vs[i])
    decreases t, 1, |vs|
  {
    if vs != [] {
      TypedTakes(t, vs[0]);
      EachTakes(t, vs[1..]);
      assert vs == [vs[0]] + vs[1..];
    }
  }

  lemma {:induction false} FieldsTake(fs: seq<Type>, vs: seq<Value>)
    requires forall f :: f in fs ==> Valid(f)
    ensures TypedFields(fs, vs).Some? <==> TakesAll(fs, vs)
    decreases fs, 0
  {
    if fs != [] && vs != [] {
      TypedTakes(fs[0], vs[0]);
      FieldsTake(fs[1..], vs[1..]);
      TakesAllCons(fs, vs);
    }
  }

  lemma TakesAllCons(fs: seq<Type>, vs: seq<Value>)
    requires fs != [] && vs != []
    ensures TakesAll(fs, vs) <==> Takes(fs[0], vs[0]) && TakesAll(fs[1..], vs[1..])
  {
    assert vs == [vs[0]] + vs[1..];
  }

  lemma {:induction false} FittingIsTaken(t: Type, v: Value)
    requires Valid(t) && Fits(t, v)
    ensures Takes(t, v)
  {
    TypedWrites(t, v);
    TypedTakes(t, v);
  }

  /** Values that fit are taken; under another type than declared is written what is taken without fitting. */
  lemma WrongTypeSuccess(t: Type, v: Value)
    requires Valid(t)
    ensures Fits(t, v) ==> Takes(t, v)
    ensures (Encode(v, Print(t)).Some? && !HasType(Encode(v, Print(t)).value, t)) <==> Takes(t, v) && !Fits(t, v)
  {
    SuccessIfTaken(t, v);
    WritesDeclaredType(t, v);
    if Fits(t, v) {
      FittingIsTaken(t, v);
    }
  }

  /** An empty list passes for a structure of one number, and for a variant. */
  lemma WrongTypeInputs()
    ensures Encode(List([]), "(i)") == Some(StructNode([])) && !HasType(StructNode([]), Struct([Basic('i')]))
    ensures Encode(List([]), "v") == Some(VariantNode("", [])) && !HasType(VariantNode("", []), Variant)
  {
  }

  /** The signature that what was written has. */
  function SignatureOf(n: Node): (s: string) {
    match n
    case Leaf(c, _) => [c]
    case ArrayNode(sig, _) => "a" + sig
    case StructNode(ns) => "(" + SignatureOfAll(ns) + ")"
    case EntryNode(ns) => "{" + SignatureOfAll(ns) + "}"
    case VariantNode(_, _) => "v"
  }

  function SignatureOfAll(ns: seq<Node>): (s: string) {
    if ns == [] then "" else SignatureOf(ns[0]) + SignatureOfAll(ns[1..])
  }

  lemma {:induction false} TypeGivesSignature(n: Node, t: Type)
    requires HasType(n, t)
    ensures SignatureOf(n) == Print(t)
    decreases t, 0
  {
    match t
    case Struct(fs) => TypesGiveSignature(n.members, fs);
    case DictEntry(fs) => TypesGiveSignature(n.members, fs);
    case _ =>
  }

  lemma {:induction false} TypesGiveSignature(ns: seq<Node>, fs: seq<Type>)
    requires HasTypes(ns, fs)
    ensures SignatureOfAll(ns) == PrintAll(fs)
    decreases fs, 0
  {
    if fs != [] {
      TypeGivesSignature(ns[0], fs[0]);
      TypesGiveSignature(ns[1..], fs[1..]);
    }
  }

  // ----- Reading back what was written -----

  /**
   What a value becomes by being written under a type: the type's own integers and doubles.
   What a variant cannot hold is lost.
   */
  ghost function Norm(t: Type, v: Value): (r: Value)
    decreases t
  {
    match t
    case Basic(c) => NormBasic(if c == 'd' then None else KindOf(c), v)
    case Variant => if Fits(Variant, v) then NormBasic(Some(S64), v) else Void
    case Array(e) =>
      if v.List? then List(seq(|v.items|, i requires 0 <= i < |v.items| => Norm(e, v.items[i]))) else v
    case Struct(fs) => if v.List? && |v.items| <= |fs| then List(NormAll(fs, v.items)) else v
    case DictEntry(fs) => if v.List? && |v.items| <= |fs| then List(NormAll(fs, v.items)) else v
  }

  ghost function NormAll(fs: seq<Type>, vs: seq<Value>): (r: seq<Value>)
    requires |vs| <= |fs|
    ensures |r| == |vs| && forall i :: 0 <= i < |vs| ==> r[i] == Norm(fs[i], vs[i])
    decreases fs
  {
    seq(|vs|, i requires 0 <= i < |vs| => Norm(fs[i], vs[i]))
  }

  function NormBasic(kind: Option<IntKind>, v: Value): (r: Value) {
    match v
    case Int(_, n) => if kind.Some? then Int(kind.value, n) else Double(OfInt(n))
    case Float(bits) => Double(OfFloat(bits))
    case _ => v
  }

  /**
   Encoding a value and decoding the message gives the normalised value, whenever success is
   reported; if the value fits, the message has the declared signature.
   */
  lemma DecodeEncode(t: Type, v: Value)
    requires Valid(t) && Takes(t, v)
    ensures Encode(v, Print(t)).Some?
    ensures Fits(t, v) ==> SignatureOf(Encode(v, Print(t)).value) == Print(t)
    ensures Decode(Encode(v, Print(t)).value) == Norm(t, v)
  {
    EncodesByType(t, v);
    TypedRoundTrip(t, v);
    TypedWrites(t, v);
    if Fits(t, v) {
      TypeGivesSignature(EncodeTyped(t, v).value, t);
    }
  }

  lemma {:induction false} TypedRoundTrip(t: Type, v: Value)
    requires Valid(t) && Takes(t, v)
    ensures EncodeTyped(t, v).Some? && Decode(EncodeTyped(t, v).value) == Norm(t, v)
    decreases t, 0
  {
    TypedTakes(t, v);
    match t
    case Array(e) => EachRoundTrip(e, v.items);
    case Struct(fs) => FieldsRoundTrip(fs, v.items);
    case DictEntry(fs) => FieldsRoundTrip(fs, v.items);
    case Basic(_) => BasicRoundTrip(t, v);
    case Variant => VariantRoundTrip(v);
  }

  lemma VariantRoundTrip(v: Value)
    ensures EncodeTyped(Variant, v).Some? && Decode(EncodeTyped(Variant, v).value) == Norm(Variant, v)
  {
  }

  lemma BasicRoundTrip(t: Type, v: Value)
    requires t.Basic? && Fits(t, v)
    ensures EncodeTyped(t, v).Some? && Decode(EncodeTyped(t, v).value) == Norm(t, v)
  {
  }

  lemma {:induction false} EachRoundTrip(e: Type, vs: seq<Value>)
    requires Valid(e) && TypedEach(e, vs).Some? && forall i :: 0 <= i < |vs| ==> Takes(e, vs[i])
    ensures DecodeAll(TypedEach(e, vs).value) == seq(|vs|, i requires 0 <= i < |vs| => Norm(e, vs[i]))
    decreases e, 1
  {
    EachElement(e, vs);
    forall i | 0 <= i < |vs|
      ensures EncodeTyped(e, vs[i]).Some? && Decode(EncodeTyped(e, vs[i]).value) == Norm(e, vs[i])
    {
      TypedRoundTrip(e, vs[i]);
    }
  }

  lemma {:induction false} FieldsRoundTrip(fs: seq<Type>, vs: seq<Value>)
    requires (forall f :: f in fs ==> Valid(f)) && TakesAll(fs, vs) && TypedFields(fs, vs).Some?
    ensures DecodeAll(TypedFields(fs, vs).value) == NormAll(fs, vs)
    decreases fs, 0
  {
    FieldElement(fs, vs);
    forall i | 0 <= i < |vs|
      ensures EncodeTyped(fs[i], vs[i]).Some? && Decode(EncodeTyped(fs[i], vs[i]).value) == Norm(fs[i], vs[i])
    {
      TypedRoundTrip(fs[i], vs[i]);
    }
  }

  lemma {:induction false} EachElement(t: Type, vs: seq<Value>)
    requires TypedEach(t, vs).Some?
    ensures var ns := TypedEach(t, vs).value;
      |ns| == |vs| && forall i :: 0 <= i < |vs| ==> EncodeTyped(t, vs[i]) == Some(ns[i])
  {
    if vs != [] {
      EachElement(t, vs[1..]);
      assert forall i :: 1 <= i < |vs| ==> vs[i] == vs[1..][i - 1];
    }
  }

  lemma {:induction false} FieldElement(fs: seq<Type>, vs: seq<Value>)
    requires TypedFields(fs, vs).Some?
    ensures var ns := TypedFields(fs, vs).value;
      |ns| == |vs| <= |fs| && forall i :: 0 <= i < |vs| ==> EncodeTyped(fs[i], vs[i]) == Some(ns[i])
  {
    if vs != [] {
      FieldElement(fs[1..], vs[1..]);
      assert forall i :: 1 <= i < |vs| ==> vs[i] == vs[1..][i - 1] && fs[i] == fs[1..][i - 1];
    }
  }

  /** Normalising loses nothing more: the normalised value is taken and writes the same message. */
  lemma NormWritesTheSame(t: Type, v: Value)
    requires Valid(t) && Takes(t, v)
    ensures Takes(t, Norm(t, v)) && Encode(Norm(t, v), Print(t)) == Encode(v, Print(t))
    ensures Norm(t, Norm(t, v)) == Norm(t, v)
    ensures Fits(t, v) <==> Fits(t, Norm(t, v))
  {
    TypedNorm(t, v);
    EncodesByType(t, v);
    EncodesByType(t, Norm(t, v));
    TypedRoundTrip(t, v);
    TypedRoundTrip(t, Norm(t, v));
    TypedWrites(t, v);
    TypedWrites(t, Norm(t, v));
  }

  lemma {:induction false} TypedNorm(t: Type, v: Value)
    requires Takes(t, v)
    ensures Takes(t, Norm(t, v)) && EncodeTyped(t, Norm(t, v)) == EncodeTyped(t, v)
    decreases t
  {
    match t
    case Array(e) =>
      forall i | 0 <= i < |v.items|
        ensures Takes(e, Norm(e, v.items[i])) && EncodeTyped(e, Norm(e, v.items[i])) == EncodeTyped(e, v.items[i])
      {
        TypedNorm(e, v.items[i]);
      }
      SameEach(e, v.items, Norm(t, v).items);
    case Struct(fs) => FieldsNorm(fs, v.items);
    case DictEntry(fs) => FieldsNorm(fs, v.items);
    case _ =>
  }

  lemma {:induction false} FieldsNorm(fs: seq<Type>, vs: seq<Value>)
    requires TakesAll(fs, vs)
    ensures TakesAll(fs, NormAll(fs, vs)) && TypedFields(fs, NormAll(fs, vs)) == TypedFields(fs, vs)
    decreases fs
  {
    forall i | 0 <= i < |vs|
      ensures Takes(fs[i], Norm(fs[i], vs[i])) && EncodeTyped(fs[i], Norm(fs[i], vs[i])) == EncodeTyped(fs[i], vs[i])
    {
      TypedNorm(fs[i], vs[i]);
    }
    SameFields(fs, vs, NormAll(fs, vs));
  }

  lemma {:induction false} SameEach(t: Type, vs: seq<Value>, ws: seq<Value>)
    requires |vs| == |ws| && forall i :: 0 <= i < |vs| ==> EncodeTyped(t, ws[i]) == EncodeTyped(t, vs[i])
    ensures TypedEach(t, ws) == TypedEach(t, vs)
  {
    if vs != [] {
      SameEach(t, vs[1..], ws[1..]);
    }
  }

  lemma {:induction false} SameFields(fs: seq<Type>, vs: seq<Value>, ws: seq<Value>)
    requires |vs| == |ws| <= |fs|
    requires forall i :: 0 <= i < |vs| ==> EncodeTyped(fs[i], ws[i]) == EncodeTyped(fs[i], vs[i])
    ensures TypedFields(fs, ws) == TypedFields(fs, vs)
  {
    if vs != [] {
      SameFields(fs[1..], vs[1..], ws[1..]);
    }
  }

  /** A list longer than the fields is always refused: its first surplus value meets the closing bracket. */
  lemma {:induction false} SurplusIsRefused(fs: seq<Type>, vs: seq<Value>)
    requires Valid(Struct(fs)) && |vs| > |fs|
    ensures Encode(List(vs), Print(Struct(fs))) == None
    ensures Valid(DictEntry(fs)) ==> Encode(List(vs), Print(DictEntry(fs))) == None
  {
    EncodesByType(Struct(fs), List(vs));
    if Valid(DictEntry(fs)) {
      EncodesByType(DictEntry(fs), List(vs));
    }
    if TypedFields(fs, vs).Some? {
      FieldElement(fs, vs);
    }
  }
}

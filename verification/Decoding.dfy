/**
 What the decoder makes of messages others wrote: of any type, with variants that hold anything.
 Reading loses nothing but the layout: from the value and the layout the message can be rebuilt.
 */
module Decoding {
  import opened Common
  import opened Signature
  import opened Marshalling
  import opened RoundTrip

  /** The message has the type; a variant holds a value of some complete type, under its signature. */
  ghost predicate Typed(n: Node, t: Type)
    decreases n
  {
    match n
    case Leaf(c, p) => t == Basic(c) && PayloadHasCode(p, c)
    case VariantNode(sig, ns) => t == Variant && |ns| == 1 && exists u :: Valid(u) && sig == Print(u) && Typed(ns[0], u)
    case ArrayNode(sig, ns) =>
      t.Array? && sig == Print(t.elem) && forall i :: 0 <= i < |ns| ==> Typed(ns[i], t.elem)
    case StructNode(ns) =>
      t.Struct? && |ns| == |t.fields| && forall i :: 0 <= i < |ns| ==> Typed(ns[i], t.fields[i])
    case EntryNode(ns) =>
      t.DictEntry? && |ns| == |t.fields| && forall i :: 0 <= i < |ns| ==> Typed(ns[i], t.fields[i])
  }

  /** The decoder knows all the codes in the message: every basic one but signatures and descriptors. */
  predicate Known(n: Node)
    decreases n
  {
    match n
    case Leaf(c, _) => c in "ybnqiuxtdso"
    case VariantNode(_, ns) => forall i :: 0 <= i < |ns| ==> Known(ns[i])
    case ArrayNode(_, ns) => forall i :: 0 <= i < |ns| ==> Known(ns[i])
    case StructNode(ns) => forall i :: 0 <= i < |ns| ==> Known(ns[i])
    case EntryNode(ns) => forall i :: 0 <= i < |ns| ==> Known(ns[i])
  }

  const NOTHING := PBool(false)

  /** The layout of a message: all of it but the basic values. */
  function Layout(n: Node): (r: Node)
    decreases n
  {
    match n
    case Leaf(c, _) => Leaf(c, NOTHING)
    case VariantNode(sig, ns) => VariantNode(sig, seq(|ns|, i requires 0 <= i < |ns| => Layout(ns[i])))
    case ArrayNode(sig, ns) => ArrayNode(sig, seq(|ns|, i requires 0 <= i < |ns| => Layout(ns[i])))
    case StructNode(ns) => StructNode(seq(|ns|, i requires 0 <= i < |ns| => Layout(ns[i])))
    case EntryNode(ns) => EntryNode(seq(|ns|, i requires 0 <= i < |ns| => Layout(ns[i])))
  }

  /** The basic value of a code that a value stands for, if it is of exactly that type. */
  function PayloadOf(c: char, v: Value): (p: Payload) {
    match v
    case Bool(b) => if c == 'b' then PBool(b) else NOTHING
    case Int(k, n) => if KindOf(c) == Some(k) then PInt(n) else NOTHING
    case Double(d) => if c == 'd' then PDouble(d) else NOTHING
    case Str(s) => if c in "os" then PStr(s) else NOTHING
    case _ => NOTHING
  }

  /** Puts a value into a layout. */
  function Rebuild(layout: Node, v: Value): (n: Node)
    decreases layout
  {
    match layout
    case Leaf(c, _) => Leaf(c, PayloadOf(c, v))
    case VariantNode(sig, ns) =>
      VariantNode(sig, seq(|ns|, i requires 0 <= i < |ns| => Rebuild(ns[i], v)))
    case ArrayNode(sig, ns) =>
      ArrayNode(sig, seq(|ns|, i requires 0 <= i < |ns| => Rebuild(ns[i], ItemOf(v, i))))
    case StructNode(ns) => StructNode(seq(|ns|, i requires 0 <= i < |ns| => Rebuild(ns[i], ItemOf(v, i))))
    case EntryNode(ns) => EntryNode(seq(|ns|, i requires 0 <= i < |ns| => Rebuild(ns[i], ItemOf(v, i))))
  }

  function ItemOf(v: Value, i: nat): (r: Value) {
    if v.List? && i < |v.items| then v.items[i] else Void
  }

  lemma LeafRebuilds(c: char, p: Payload)
    requires c in "ybnqiuxtdso" && PayloadHasCode(p, c)
    ensures Leaf(c, PayloadOf(c, DecodeLeaf(c, p))) == Leaf(c, p) && DecodeLeaf(c, p) != Void
  {
  }

  /** Nothing is lost: the value read and the layout make up the message again. */
  lemma {:induction false} RebuildDecoded(n: Node, t: Type)
    requires Typed(n, t) && Known(n)
    ensures Rebuild(Layout(n), Decode(n)) == n
    decreases n
  {
    match n
    case Leaf(c, p) => LeafRebuilds(c, p);
    case VariantNode(sig, ns) =>
      var u :| Valid(u) && sig == Print(u) && Typed(ns[0], u);
      RebuildDecoded(ns[0], u);
    case ArrayNode(_, ns) =>
      forall i | 0 <= i < |ns|
        ensures Rebuild(Layout(ns[i]), Decode(ns[i])) == ns[i]
      {
        RebuildDecoded(ns[i], t.elem);
      }
    case StructNode(ns) => MembersRebuild(ns, t.fields);
    case EntryNode(ns) => MembersRebuild(ns, t.fields);
  }

  lemma {:induction false} MembersRebuild(ns: seq<Node>, fs: seq<Type>)
    requires |ns| == |fs| && forall i :: 0 <= i < |ns| ==> Typed(ns[i], fs[i]) && Known(ns[i])
    ensures forall i :: 0 <= i < |ns| ==> Rebuild(Layout(ns[i]), Decode(ns[i])) == ns[i]
    decreases ns
  {
    forall i | 0 <= i < |ns|
      ensures Rebuild(Layout(ns[i]), Decode(ns[i])) == ns[i]
    {
      RebuildDecoded(ns[i], fs[i]);
    }
  }

  /** So two messages of one layout are told apart by what is read from them. */
  lemma DecodeIsInjective(n: Node, m: Node, t: Type, u: Type)
    requires Typed(n, t) && Typed(m, u) && Known(n) && Known(m) && Layout(n) == Layout(m)
    ensures Decode(n) == Decode(m) <==> n == m
  {
    RebuildDecoded(n, t);
    RebuildDecoded(m, u);
  }

  /** What a variant holds, inside all the variants around it. */
  function Inside(n: Node): (r: Node)
    decreases n
  {
    if n.VariantNode? && |n.content| == 1 then Inside(n.content[0]) else n
  }

  /** Nothing is read exactly for a basic value of a code the decoder does not know, in variants or not. */
  lemma {:induction false} VoidIsUnknown(n: Node, t: Type)
    requires Typed(n, t)
    ensures Decode(n) == Decode(Inside(n)) && !Inside(n).VariantNode?
    ensures Decode(n) == Void <==> Inside(n).Leaf? && Inside(n).code !in "ybnqiuxtdso"
    decreases n
  {
    match n
    case Leaf(c, p) =>
      if c in "ybnqiuxtdso" {
        LeafRebuilds(c, p);
      }
    case VariantNode(sig, ns) =>
      var u :| Valid(u) && sig == Print(u) && Typed(ns[0], u);
      VoidIsUnknown(ns[0], u);
    case _ =>
  }

  /** Such a code is that of a signature. */
  lemma UnknownIsSignature(c: char, p: Payload)
    requires PayloadHasCode(p, c)
    ensures DecodeLeaf(c, p) == Void <==> c == 'g'
  {
    if c in "ybnqiuxtdso" {
      LeafRebuilds(c, p);
    }
  }

  /** A list of strings in a variant is read as that list. */
  lemma ListInVariant(s: string)
    ensures Decode(VariantNode("as", [ArrayNode("s", [Leaf('s', PStr(s))])])) == List([Str(s)])
  {
  }
}

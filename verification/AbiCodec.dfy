/**
  The Contract ABI Specification for the types the swap calldata uses: 256-bit words, byte strings,
  arrays and tuples. `Encode` follows "Formal Specification of the Encoding"; `Decode` is an
  independent reader that knows only the types and the bytes.
 */
module AbiCodec {
  import opened ByteCodec
  import opened Wrappers

  datatype Type = WordT | BlobT | ListT(element: Type) | TupleT(parts: seq<Type>)
  datatype Value = Word(n: nat) | Blob(bytes: Bytes) | List(items: seq<Value>) | Tuple(fields: seq<Value>)

  function WordLimit(): nat { Span(32) }

  // ---------- types ----------

  predicate Static(t: Type) {
    match t
    case WordT => true
    case BlobT => false
    case ListT(_) => false
    case TupleT(ts) => forall u | u in ts :: Static(u)
  }

  /** How many bytes a component takes in the head part of the tuple around it. */
  function HeadSize(t: Type): (n: nat)
    decreases t, 1
  {
    if t.TupleT? && Static(t) then HeadsSize(t.parts) else 32
  }

  function HeadsSize(ts: seq<Type>): nat
    decreases ts, 0
  {
    if ts == [] then 0 else HeadSize(ts[0]) + HeadsSize(ts[1..])
  }

  function Repeat(t: Type, n: nat): (ts: seq<Type>)
    ensures |ts| == n
  {
    if n == 0 then [] else [t] + Repeat(t, n - 1)
  }

  predicate HasType(t: Type, v: Value)
    decreases v, 0
  {
    match (t, v)
    case (WordT, Word(n)) => n < WordLimit()
    case (BlobT, Blob(_)) => true
    case (ListT(e), List(items)) => |items| < WordLimit() && HaveTypes(Repeat(e, |items|), items)
    case (TupleT(ts), Tuple(vs)) => HaveTypes(ts, vs)
    case _ => false
  }

  predicate HaveTypes(ts: seq<Type>, vs: seq<Value>)
    decreases vs, 1
  {
    |ts| == |vs| && (ts != [] ==> HasType(ts[0], vs[0]) && HaveTypes(ts[1..], vs[1..]))
  }

  // ---------- the encoding of the specification ----------

  /** The word of `n`; a number that no word can hold has no encoding and gets the zero word. */
  function WordBytes(n: nat): (bs: Bytes)
    ensures |bs| == 32
  {
    BigEndian(if n < WordLimit() then n else 0, 32)
  }

  function Zeros(n: nat): (bs: Bytes)
    ensures |bs| == n
  {
    seq(n, _ => 0)
  }

  /** Zero bytes up to the next multiple of 32. */
  function Padding(n: int): Bytes { Zeros(-n % 32) }

  function Encode(t: Type, v: Value): Bytes
    requires HasType(t, v)
    decreases v, 0
  {
    match v
    case Word(n) => WordBytes(n)
    case Blob(bs) => WordBytes(|bs|) + bs + Padding(|bs|)
    case List(items) =>
      var ts := Repeat(t.element, |items|);
      WordBytes(|items|) + (Heads(ts, items, HeadsSize(ts)) + Tails(ts, items))
    case Tuple(vs) => Heads(t.parts, vs, HeadsSize(t.parts)) + Tails(t.parts, vs)
  }

  /** Head parts, where the first dynamic component's tail starts at `offset`. */
  function Heads(ts: seq<Type>, vs: seq<Value>, offset: nat): Bytes
    requires HaveTypes(ts, vs)
    decreases vs, 1
  {
    if vs == [] then []
    else
      var body := Encode(ts[0], vs[0]);
      if Static(ts[0]) then body + Heads(ts[1..], vs[1..], offset)
      else WordBytes(offset) + Heads(ts[1..], vs[1..], offset + |body|)
  }

  function Tails(ts: seq<Type>, vs: seq<Value>): Bytes
    requires HaveTypes(ts, vs)
    decreases vs, 1
  {
    if vs == [] then []
    else (if Static(ts[0]) then [] else Encode(ts[0], vs[0])) + Tails(ts[1..], vs[1..])
  }

  // ---------- a reader of that encoding ----------

  function Depth(t: Type): nat
    decreases t, 1
  {
    match t
    case ListT(e) => 1 + Depth(e)
    case TupleT(ts) => 1 + Depths(ts)
    case _ => 0
  }

  function Depths(ts: seq<Type>): (n: nat)
    decreases ts, 0
  {
    if ts == [] then 0
    else if Depth(ts[0]) > Depths(ts[1..]) then Depth(ts[0]) else Depths(ts[1..])
  }

  lemma RepeatDepth(t: Type, n: nat)
    ensures Depths(Repeat(t, n)) <= Depth(t)
  {
    if n > 0 {
      RepeatDepth(t, n - 1);
      assert Repeat(t, n)[1..] == Repeat(t, n - 1);
    }
  }

  function ReadWord(data: Bytes, at: nat): Option<nat> {
    if at + 32 <= |data| then Some(FromBigEndian(data[at..at + 32])) else None
  }

  /** The value of type `t` whose encoding starts at `at`. */
  function DecodeAt(t: Type, data: Bytes, at: nat): Option<Value>
    decreases Depth(t), 0
  {
    match t
    case WordT => ReadWord(data, at).Map(n => Word(n))
    case BlobT => (
      match ReadWord(data, at)
      case Some(n) =>
        if at + 32 + n <= |data| then Some(Blob(data[at + 32..at + 32 + n])) else None
      case None => None)
    case ListT(e) => (
      match ReadWord(data, at)
      case Some(n) =>
        RepeatDepth(e, n);
        DecodeAll(Repeat(e, n), data, at + 32, at + 32).Map(vs => List(vs))
      case None => None)
    case TupleT(ts) => DecodeAll(ts, data, at, at).Map(vs => Tuple(vs))
  }

  /** The components of a tuple whose heads continue at `at` and whose offsets count from `base`. */
  function DecodeAll(ts: seq<Type>, data: Bytes, at: nat, base: nat): Option<seq<Value>>
    decreases Depths(ts), 1 + |ts|
  {
    if ts == [] then Some([])
    else
      var first :=
        if Static(ts[0]) then DecodeAt(ts[0], data, at)
        else match ReadWord(data, at)
          case Some(offset) => DecodeAt(ts[0], data, base + offset)
          case None => None;
      match (first, DecodeAll(ts[1..], data, at + HeadSize(ts[0]), base))
      case (Some(v), Some(vs)) => Some([v] + vs)
      case _ => None
  }

  function Decode(t: Type, data: Bytes): Option<Value> { DecodeAt(t, data, 0) }

  // ---------- the reader undoes the encoding ----------

  lemma EncodeList(element: Type, items: seq<Value>)
    requires HasType(ListT(element), List(items))
    ensures var ts := Repeat(element, |items|);
      && HaveTypes(ts, items)
      && Encode(ListT(element), List(items))
        == WordBytes(|items|) + (Heads(ts, items, HeadsSize(ts)) + Tails(ts, items))
  {
  }

  lemma ListTyped(element: Type, items: seq<Value>)
    requires HaveTypes(Repeat(element, |items|), items) && |items| < WordLimit()
    ensures HasType(ListT(element), List(items))
  {
  }

  lemma EncodeTuple(ts: seq<Type>, vs: seq<Value>)
    requires HaveTypes(ts, vs)
    ensures HasType(TupleT(ts), Tuple(vs))
    ensures Encode(TupleT(ts), Tuple(vs)) == Heads(ts, vs, HeadsSize(ts)) + Tails(ts, vs)
  {
  }

  /** Laying out one more component in front of others. */
  lemma HeadsCons(t: Type, v: Value, ts: seq<Type>, vs: seq<Value>, offset: nat)
    requires HasType(t, v) && HaveTypes(ts, vs)
    ensures HaveTypes([t] + ts, [v] + vs)
    ensures HeadsSize([t] + ts) == HeadSize(t) + HeadsSize(ts)
    ensures Static(t) ==>
      && Heads([t] + ts, [v] + vs, offset) == Encode(t, v) + Heads(ts, vs, offset)
      && Tails([t] + ts, [v] + vs) == Tails(ts, vs)
    ensures !Static(t) ==>
      && HeadSize(t) == 32
      && Heads([t] + ts, [v] + vs, offset)
        == WordBytes(offset) + Heads(ts, vs, offset + |Encode(t, v)|)
      && Tails([t] + ts, [v] + vs) == Encode(t, v) + Tails(ts, vs)
  {
    var us, ws := [t] + ts, [v] + vs;
    assert us[1..] == ts && ws[1..] == vs;
    if Static(t) {
      assert Tails(us, ws) == Tails(ts, vs);
    }
  }

  lemma ReadWordBack(data: Bytes, at: nat, n: nat)
    requires n < WordLimit() && Holds(data, at, WordBytes(n))
    ensures ReadWord(data, at) == Some(n)
  {
    BigEndianRoundTrip(n, 32);
  }

  lemma {:induction false} StaticSize(t: Type, v: Value)
    requires HasType(t, v) && Static(t)
    ensures |Encode(t, v)| == HeadSize(t)
    decreases v, 0
  {
    if v.Tuple? {
      StaticHeads(t.parts, v.fields, HeadsSize(t.parts));
    }
  }

  lemma {:induction false} StaticHeads(ts: seq<Type>, vs: seq<Value>, offset: nat)
    requires HaveTypes(ts, vs) && forall t | t in ts :: Static(t)
    ensures |Heads(ts, vs, offset)| == HeadsSize(ts) && Tails(ts, vs) == []
    decreases vs, 1
  {
    if vs != [] {
      StaticSize(ts[0], vs[0]);
      StaticHeads(ts[1..], vs[1..], offset);
    }
  }

  /** A value is read back from any place of any byte string that holds its encoding. */
  lemma {:induction false} DecodeAtEncode(t: Type, v: Value, data: Bytes, at: nat)
    requires HasType(t, v) && |Encode(t, v)| < WordLimit() && Holds(data, at, Encode(t, v))
    ensures DecodeAt(t, data, at) == Some(v)
    decreases v, 0
  {
    match v
    case Word(n) =>
      ReadWordBack(data, at, n);
    case Blob(bs) =>
      HoldsSplit(data, at, WordBytes(|bs|) + bs, Padding(|bs|));
      HoldsSplit(data, at, WordBytes(|bs|), bs);
      ReadWordBack(data, at, |bs|);
    case List(items) =>
      var ts := Repeat(t.element, |items|);
      var body := Heads(ts, items, HeadsSize(ts)) + Tails(ts, items);
      HoldsSplit(data, at, WordBytes(|items|), body);
      ReadWordBack(data, at, |items|);
      RepeatDepth(t.element, |items|);
      DecodeSplit(ts, items, data, at + 32);
    case Tuple(vs) =>
      DecodeSplit(t.parts, vs, data, at);
  }

  lemma {:induction false} DecodeSplit(ts: seq<Type>, vs: seq<Value>, data: Bytes, at: nat)
    requires HaveTypes(ts, vs)
    requires |Heads(ts, vs, HeadsSize(ts)) + Tails(ts, vs)| < WordLimit()
    requires Holds(data, at, Heads(ts, vs, HeadsSize(ts)) + Tails(ts, vs))
    ensures DecodeAll(ts, data, at, at) == Some(vs)
    decreases vs, 2
  {
    HeadsLength(ts, vs, HeadsSize(ts));
    HoldsSplit(data, at, Heads(ts, vs, HeadsSize(ts)), Tails(ts, vs));
    DecodeAllEncode(ts, vs, HeadsSize(ts), data, at, at);
  }

  lemma {:induction false} HeadsLength(ts: seq<Type>, vs: seq<Value>, offset: nat)
    requires HaveTypes(ts, vs)
    ensures |Heads(ts, vs, offset)| == HeadsSize(ts)
    decreases vs, 1
  {
    if vs != [] {
      if Static(ts[0]) {
        StaticSize(ts[0], vs[0]);
        HeadsLength(ts[1..], vs[1..], offset);
      } else {
        HeadsLength(ts[1..], vs[1..], offset + |Encode(ts[0], vs[0])|);
      }
    }
  }

  lemma StaticLayout(ts: seq<Type>, vs: seq<Value>, offset: nat)
    requires HaveTypes(ts, vs) && vs != [] && Static(ts[0])
    ensures HasType(ts[0], vs[0]) && HaveTypes(ts[1..], vs[1..])
    ensures |Encode(ts[0], vs[0])| == HeadSize(ts[0])
    ensures Heads(ts, vs, offset) == Encode(ts[0], vs[0]) + Heads(ts[1..], vs[1..], offset)
    ensures Tails(ts, vs) == Tails(ts[1..], vs[1..])
  {
    StaticSize(ts[0], vs[0]);
  }

  lemma DynamicLayout(ts: seq<Type>, vs: seq<Value>, offset: nat)
    requires HaveTypes(ts, vs) && vs != [] && !Static(ts[0])
    ensures HasType(ts[0], vs[0]) && HaveTypes(ts[1..], vs[1..])
    ensures HeadSize(ts[0]) == 32
    ensures Heads(ts, vs, offset)
      == WordBytes(offset) + Heads(ts[1..], vs[1..], offset + |Encode(ts[0], vs[0])|)
    ensures Tails(ts, vs) == Encode(ts[0], vs[0]) + Tails(ts[1..], vs[1..])
  {
  }

  lemma DecodeCons(ts: seq<Type>, vs: seq<Value>, data: Bytes, at: nat, base: nat)
    requires |ts| == |vs| && vs != []
    requires Static(ts[0]) ==> DecodeAt(ts[0], data, at) == Some(vs[0])
    requires !Static(ts[0]) ==>
      && ReadWord(data, at).Some?
      && DecodeAt(ts[0], data, base + ReadWord(data, at).value) == Some(vs[0])
    requires DecodeAll(ts[1..], data, at + HeadSize(ts[0]), base) == Some(vs[1..])
    ensures DecodeAll(ts, data, at, base) == Some(vs)
  {
    assert vs == [vs[0]] + vs[1..];
  }

  /** Each offset word points at its component's tail, however far the reader has come. */
  lemma {:induction false} DecodeAllEncode(
      ts: seq<Type>, vs: seq<Value>, offset: nat, data: Bytes, at: nat, base: nat)
    requires HaveTypes(ts, vs)
    requires offset + |Tails(ts, vs)| < WordLimit() && |Heads(ts, vs, offset)| < WordLimit()
    requires Holds(data, at, Heads(ts, vs, offset)) && Holds(data, base + offset, Tails(ts, vs))
    ensures DecodeAll(ts, data, at, base) == Some(vs)
    decreases vs, 1
  {
    if vs == [] {
      assert ts == [];
    } else {
      DecodeMore(ts, vs, offset, data, at, base);
    }
  }

  lemma {:induction false} DecodeMore(
      ts: seq<Type>, vs: seq<Value>, offset: nat, data: Bytes, at: nat, base: nat)
    requires |ts| == |vs| && HaveTypes(ts, vs) && vs != []
    requires offset + |Tails(ts, vs)| < WordLimit() && |Heads(ts, vs, offset)| < WordLimit()
    requires Holds(data, at, Heads(ts, vs, offset)) && Holds(data, base + offset, Tails(ts, vs))
    ensures DecodeAll(ts, data, at, base) == Some(vs)
    decreases vs, 0
  {
    hide *;
    if Static(ts[0]) {
      StaticLayout(ts, vs, offset);
      var body := Encode(ts[0], vs[0]);
      HoldsSplit(data, at, body, Heads(ts[1..], vs[1..], offset));
      DecodeAtEncode(ts[0], vs[0], data, at);
      DecodeAllEncode(ts[1..], vs[1..], offset, data, at + |body|, base);
    } else {
      DynamicLayout(ts, vs, offset);
      var body := Encode(ts[0], vs[0]);
      HoldsSplit(data, at, WordBytes(offset), Heads(ts[1..], vs[1..], offset + |body|));
      HoldsSplit(data, base + offset, body, Tails(ts[1..], vs[1..]));
      ReadWordBack(data, at, offset);
      DecodeAtEncode(ts[0], vs[0], data, base + offset);
      DecodeAllEncode(ts[1..], vs[1..], offset + |body|, data, at + 32, base);
    }
    DecodeCons(ts, vs, data, at, base);
  }

  lemma {:induction false} DecodeEncode(t: Type, v: Value)
    requires HasType(t, v) && |Encode(t, v)| < WordLimit()
    ensures Decode(t, Encode(t, v)) == Some(v)
  {
    DecodeAtEncode(t, v, Encode(t, v), 0);
  }
}

/**
  The hand-written ABI encoder of the local gas measurement: words, padded byte strings, arrays of
  byte strings with running offsets, and the swap call built from them with literal offsets.
 */
module SwapCalldata {
  import opened AbiCodec
  import opened ByteCodec
  import opened Wrappers

  /** `to_bytes(32, 'big')`: a number outside the word range raises, which is `None` here. */
  function W(x: int): Option<Bytes> {
    if 0 <= x < WordLimit() then Some(BigEndian(x, 32)) else None
  }

  function Blobs(xs: seq<Bytes>): (vs: seq<Value>)
    ensures |vs| == |xs|
  {
    if xs == [] then [] else [Blob(xs[0])] + Blobs(xs[1..])
  }

  lemma BlobsTyped(xs: seq<Bytes>)
    ensures HaveTypes(Repeat(BlobT, |xs|), Blobs(xs))
  {
    if xs != [] {
      BlobsTyped(xs[1..]);
      assert Repeat(BlobT, |xs|)[1..] == Repeat(BlobT, |xs[1..]|);
      assert Blobs(xs)[1..] == Blobs(xs[1..]);
    }
  }

  function B(x: Bytes): Bytes {
    WordBytes(|x|) + x + Padding(|x|)
  }

  function JoinB(xs: seq<Bytes>): Bytes {
    if xs == [] then [] else B(xs[0]) + JoinB(xs[1..])
  }

  /** The offset words of `xs` when the first element's bytes start at `offset`. */
  function Offsets(xs: seq<Bytes>, offset: nat): Bytes {
    if xs == [] then [] else WordBytes(offset) + Offsets(xs[1..], offset + |B(xs[0])|)
  }

  function ArrBytes(xs: seq<Bytes>): Bytes {
    WordBytes(|xs|) + Offsets(xs, 32 * |xs|) + JoinB(xs)
  }

  lemma {:induction false} OffsetsAreHeads(xs: seq<Bytes>, offset: nat)
    ensures HaveTypes(Repeat(BlobT, |xs|), Blobs(xs))
    ensures Heads(Repeat(BlobT, |xs|), Blobs(xs), offset) == Offsets(xs, offset)
    ensures Tails(Repeat(BlobT, |xs|), Blobs(xs)) == JoinB(xs)
    ensures HeadsSize(Repeat(BlobT, |xs|)) == 32 * |xs|
  {
    hide Padding, WordBytes, B, HasType, Encode, Static;
    BlobsTyped(xs);
    if xs != [] {
      BlobFirst(xs);
      DynamicLayout(Repeat(BlobT, |xs|), Blobs(xs), offset);
      OffsetsAreHeads(xs[1..], offset + |B(xs[0])|);
    }
  }

  lemma BlobFirst(xs: seq<Bytes>)
    requires xs != []
    ensures var ts, vs := Repeat(BlobT, |xs|), Blobs(xs);
      && ts[0] == BlobT && !Static(BlobT) && ts[1..] == Repeat(BlobT, |xs[1..]|)
      && vs[0] == Blob(xs[0]) && vs[1..] == Blobs(xs[1..])
      && HasType(BlobT, vs[0]) && Encode(BlobT, vs[0]) == B(xs[0])
  {
  }

  /** The array encoder's layout is the specification's encoding of a `bytes[]`. */
  lemma ArrIsAbi(xs: seq<Bytes>)
    requires |xs| < WordLimit()
    ensures HasType(ListT(BlobT), List(Blobs(xs)))
    ensures ArrBytes(xs) == Encode(ListT(BlobT), List(Blobs(xs)))
  {
    hide *;
    OffsetsAreHeads(xs, 32 * |xs|);
    ListTyped(BlobT, Blobs(xs));
    EncodeList(BlobT, Blobs(xs));
    ArrParts(xs);
  }

  lemma ArrParts(xs: seq<Bytes>)
    ensures ArrBytes(xs) == WordBytes(|xs|) + (Offsets(xs, 32 * |xs|) + JoinB(xs))
  {
  }

  lemma {:induction false} JoinAligned(xs: seq<Bytes>)
    ensures |JoinB(xs)| % 32 == 0
  {
    hide B;
    if xs != [] {
      JoinAligned(xs[1..]);
      BlobAligned(xs[0]);
    }
  }

  lemma BlobAligned(x: Bytes)
    ensures |B(x)| % 32 == 0
  {
  }

  /** Every running offset lands on its element's length word: the list is read back as it was. */
  lemma ArrDecodes(xs: seq<Bytes>)
    requires |xs| < WordLimit() && |ArrBytes(xs)| < WordLimit()
    ensures Decode(ListT(BlobT), ArrBytes(xs)) == Some(List(Blobs(xs)))
    ensures |ArrBytes(xs)| % 32 == 0
  {
    hide Decode, Encode, HasType, WordLimit, JoinB, B, Padding;
    ArrIsAbi(xs);
    DecodeEncode(ListT(BlobT), List(Blobs(xs)));
    JoinAligned(xs);
    ArrSize(xs);
  }

  function Join(parts: seq<Bytes>): Bytes {
    if parts == [] then [] else Join(parts[..|parts| - 1]) + parts[|parts| - 1]
  }

  lemma JoinAppend(parts: seq<Bytes>, part: Bytes)
    ensures Join(parts + [part]) == Join(parts) + part
  {
    assert (parts + [part])[..|parts|] == parts;
  }

  lemma OffsetsStep(xs: seq<Bytes>, i: nat, offset: nat)
    requires i < |xs|
    ensures Offsets(xs[i..], offset)
      == WordBytes(offset) + Offsets(xs[i + 1..], offset + |B(xs[i])|)
    ensures JoinB(xs[i..]) == B(xs[i]) + JoinB(xs[i + 1..])
  {
    assert xs[i..][1..] == xs[i + 1..];
  }

  lemma WordOf(n: nat)
    requires n < WordLimit()
    ensures W(n) == Some(WordBytes(n))
  {
  }

  /**
    `arr`. No byte string has 2^256 bytes, so no offset word overflows for a list whose encoding
    is shorter than that.
   */
  method Arr(xs: seq<Bytes>) returns (r: Bytes)
    requires |xs| < WordLimit() && 32 * |xs| + |JoinB(xs)| < WordLimit()
    ensures r == ArrBytes(xs)
  {
    hide WordLimit, W, WordBytes, B, Padding;
    var off: nat := 32 * |xs|;
    var o: seq<Bytes> := [];
    var i := 0;
    assert xs[0..] == xs;
    while i < |xs|
      invariant 0 <= i <= |xs|
      invariant Join(o) + Offsets(xs[i..], off) == Offsets(xs, 32 * |xs|)
      invariant off + |JoinB(xs[i..])| == 32 * |xs| + |JoinB(xs)|
    {
      OffsetsStep(xs, i, off);
      WordOf(off);
      JoinAppend(o, W(off).value);
      o := o + [W(off).value];
      off := off + |B(xs[i])|;
      i := i + 1;
    }
    WordOf(|xs|);
    r := W(|xs|).value + Join(o) + JoinB(xs);
  }

  // ---------- the swap call ----------

  /** The addresses the measurement reads from its metadata. */
  datatype Meta = Meta(usdg: nat, hkmn: nat, hook: nat)

  const SELECTOR: Bytes := [0x35, 0x93, 0x56, 0x4c]
  const ACTIONS: Bytes := [0x06, 0x0c, 0x0f]
  const COMMANDS: Bytes := [0x10]
  const MAX_WORD: nat := WordLimit() - 1

  function Currency0(m: Meta): nat { if m.hkmn < m.usdg then m.hkmn else m.usdg }

  function Currency1(m: Meta): nat { if m.hkmn < m.usdg then m.usdg else m.hkmn }

  function Paid(m: Meta, zero: bool): nat { if zero then Currency0(m) else Currency1(m) }

  function Taken(m: Meta, zero: bool): nat { if zero then Currency1(m) else Currency0(m) }

  function Words(xs: seq<int>): Option<Bytes> {
    if xs == [] then Some([])
    else match (W(xs[0]), Words(xs[1..]))
      case (Some(word), Some(words)) => Some(word + words)
      case _ => None
  }

  function Head(m: Meta, zero: bool, amount: int): seq<int> {
    [Currency0(m), Currency1(m), 0, 60, m.hook, if zero then 1 else 0, amount, 0, 0, 320]
  }

  /** The swap action's parameter `p0`. */
  function SwapParam(m: Meta, zero: bool, amount: int): Option<Bytes> {
    Words(Head(m, zero, amount)).Map(head => WordBytes(32) + head + WordBytes(0))
  }

  function PairParam(x: nat, y: nat): Bytes { WordBytes(x) + WordBytes(y) }

  function Params(m: Meta, zero: bool, swap: Bytes): seq<Bytes> {
    [swap, PairParam(Paid(m, zero), MAX_WORD), PairParam(Taken(m, zero), 0)]
  }

  /** The actions and their parameters, with the literal offsets 64 and 128. */
  function ActionsBytes(params: seq<Bytes>): Bytes {
    WordBytes(64) + WordBytes(128) + B(ACTIONS) + ArrBytes(params)
  }

  function ExecuteBytes(actions: Bytes, deadline: Bytes): Bytes {
    var commands := B(COMMANDS);
    SELECTOR
      + (WordBytes(96) + WordBytes(96 + |commands|) + deadline + commands + ArrBytes([actions]))
  }

  /** `enc`, for the block timestamp its node reports. */
  function Enc(m: Meta, zero: bool, amount: int, timestamp: nat): Option<Bytes> {
    match (SwapParam(m, zero, amount), W(timestamp + 3600))
    case (Some(swap), Some(deadline)) =>
      Some(ExecuteBytes(ActionsBytes(Params(m, zero, swap)), deadline))
    case _ => None
  }

  // ---------- what the receiving contracts decode ----------

  /** Values that fill one word each. */
  function WordValues(ns: seq<nat>): (vs: seq<Value>)
    ensures |vs| == |ns|
  {
    if ns == [] then [] else [Word(ns[0])] + WordValues(ns[1..])
  }

  function WordRun(ns: seq<nat>): (bs: Bytes)
    ensures |bs| == 32 * |ns|
  {
    if ns == [] then [] else WordBytes(ns[0]) + WordRun(ns[1..])
  }

  predicate AllFit(ns: seq<int>) { forall i | 0 <= i < |ns| :: 0 <= ns[i] < WordLimit() }

  const PoolKeyT := TupleT(Repeat(WordT, 5))
  const SwapT := TupleT([TupleT([PoolKeyT] + Repeat(WordT, 4) + [BlobT])])
  const PairT := TupleT(Repeat(WordT, 2))
  const ActionsT := TupleT([BlobT, ListT(BlobT)])
  const ExecuteT := TupleT([BlobT, ListT(BlobT), WordT])

  function PoolKeyWords(m: Meta): seq<nat> { [Currency0(m), Currency1(m), 0, 60, m.hook] }

  function OrderWords(zero: bool, amount: nat): seq<nat> { [if zero then 1 else 0, amount, 0, 0] }

  /** The pool key, the direction, the amount, no minimum, and no hook data. */
  function SwapValue(m: Meta, zero: bool, amount: nat): Value {
    Tuple([Tuple([Tuple(WordValues(PoolKeyWords(m)))]
                 + WordValues(OrderWords(zero, amount)) + [Blob([])])])
  }

  function PairValue(x: nat, y: nat): Value { Tuple(WordValues([x, y])) }

  predicate AddressesFit(m: Meta) { AllFit([m.usdg, m.hkmn, m.hook]) }

  lemma SmallWords()
    ensures WordLimit() > 65536
  {
    SpanMonotone(3, 32);
  }

  lemma {:induction false} WordsFit(ns: seq<int>)
    ensures Words(ns).Some? <==> AllFit(ns)
  {
    hide WordLimit;
    if ns != [] {
      WordsFit(ns[1..]);
      assert AllFit(ns) <==> W(ns[0]).Some? && AllFit(ns[1..]);
    }
  }

  lemma {:induction false} WordsRun(ns: seq<nat>)
    requires AllFit(ns)
    ensures Words(ns) == Some(WordRun(ns))
  {
    hide WordLimit;
    if ns != [] {
      WordsRun(ns[1..]);
      assert W(ns[0]) == Some(WordBytes(ns[0]));
    }
  }

  lemma {:induction false} WordHeads(ns: seq<nat>, ts: seq<Type>, vs: seq<Value>, offset: nat)
    requires AllFit(ns) && HaveTypes(ts, vs)
    ensures var us, ws := Repeat(WordT, |ns|) + ts, WordValues(ns) + vs;
      && HaveTypes(us, ws)
      && Heads(us, ws, offset) == WordRun(ns) + Heads(ts, vs, offset)
      && Tails(us, ws) == Tails(ts, vs)
      && HeadsSize(us) == 32 * |ns| + HeadsSize(ts)
  {
    hide HaveTypes, Heads, Tails, HeadsSize, WordBytes, WordLimit;
    if ns == [] {
      assert Repeat(WordT, 0) + ts == ts && WordValues(ns) + vs == vs;
      assert WordRun(ns) + Heads(ts, vs, offset) == Heads(ts, vs, offset);
    } else {
      var us, ws := Repeat(WordT, |ns| - 1) + ts, WordValues(ns[1..]) + vs;
      WordHeads(ns[1..], ts, vs, offset);
      HeadsCons(WordT, Word(ns[0]), us, ws, offset);
      assert Repeat(WordT, |ns|) + ts == [WordT] + us;
      assert WordValues(ns) + vs == [Word(ns[0])] + ws;
      assert WordRun(ns) + Heads(ts, vs, offset)
          == WordBytes(ns[0]) + (WordRun(ns[1..]) + Heads(ts, vs, offset));
    }
  }

  lemma WordTuple(ns: seq<nat>)
    requires AllFit(ns)
    ensures HasType(TupleT(Repeat(WordT, |ns|)), Tuple(WordValues(ns)))
    ensures Encode(TupleT(Repeat(WordT, |ns|)), Tuple(WordValues(ns))) == WordRun(ns)
  {
    hide *;
    var ts, vs := Repeat(WordT, |ns|), WordValues(ns);
    NoComponents();
    WordHeads(ns, [], [], 32 * |ns|);
    assert ts + [] == ts && vs + [] == vs && WordRun(ns) + [] == WordRun(ns);
    EncodeTuple(ts, vs);
  }

  lemma NoComponents()
    ensures HaveTypes([], []) && Tails([], []) == [] && HeadsSize([]) == 0
    ensures forall offset: nat :: Heads([], [], offset) == []
  {
  }

  lemma PairIsAbi(x: nat, y: nat)
    requires x < WordLimit() && y < WordLimit()
    ensures HasType(PairT, PairValue(x, y))
    ensures PairParam(x, y) == Encode(PairT, PairValue(x, y))
    ensures |PairParam(x, y)| == 64
  {
    hide WordLimit, WordBytes, Encode, HasType;
    WordTuple([x, y]);
    assert WordRun([x, y]) == PairParam(x, y) by {
      assert [x, y][1..] == [y];
    }
  }

  /** The words of `p0` are one struct of a static pool key, four words and empty hook data. */
  lemma SwapIsAbi(m: Meta, zero: bool, amount: nat)
    requires AddressesFit(m) && amount < WordLimit()
    ensures HasType(SwapT, SwapValue(m, zero, amount))
    ensures SwapParam(m, zero, amount) == Some(Encode(SwapT, SwapValue(m, zero, amount)))
    ensures |Encode(SwapT, SwapValue(m, zero, amount))| == 384
  {
    hide Encode, HasType, WordBytes, AllFit, AddressesFit, WordRun, Words, WordValues;
    FieldsFit(m, zero, amount);
    StructIsAbi(PoolKeyWords(m), OrderWords(zero, amount));
    SwapWords(m, zero, amount);
    FieldCounts(m, zero, amount);
  }

  lemma FieldsFit(m: Meta, zero: bool, amount: nat)
    requires AddressesFit(m) && amount < WordLimit()
    ensures AllFit(PoolKeyWords(m)) && AllFit(OrderWords(zero, amount))
  {
    SmallWords();
    var xs := [m.usdg, m.hkmn, m.hook];
    assert xs[0] < WordLimit() && xs[1] < WordLimit() && xs[2] < WordLimit();
  }

  lemma FieldCounts(m: Meta, zero: bool, amount: nat)
    ensures |WordRun(PoolKeyWords(m))| == 160 && |WordRun(OrderWords(zero, amount))| == 128
  {
  }

  lemma SwapWords(m: Meta, zero: bool, amount: nat)
    requires AllFit(PoolKeyWords(m)) && AllFit(OrderWords(zero, amount))
    ensures Words(Head(m, zero, amount))
      == Some(WordRun(PoolKeyWords(m)) + WordRun(OrderWords(zero, amount)) + WordBytes(320))
  {
    hide WordLimit, WordBytes, AllFit, WordRun;
    var ns := PoolKeyWords(m) + OrderWords(zero, amount) + [320];
    assert AllFit(ns) by {
      AllFitConcat(PoolKeyWords(m), OrderWords(zero, amount));
    }
    WordsRun(ns);
    WordRunConcat(PoolKeyWords(m), OrderWords(zero, amount));
    WordRunConcat(PoolKeyWords(m) + OrderWords(zero, amount), [320]);
    WordRunOne(320);
    assert Head(m, zero, amount) == ns;
  }

  lemma AllFitConcat(ns: seq<nat>, ks: seq<nat>)
    requires AllFit(ns) && AllFit(ks)
    ensures AllFit(ns + ks + [320])
  {
    SmallWords();
  }

  lemma WordRunOne(n: nat)
    ensures WordRun([n]) == WordBytes(n)
  {
  }

  lemma {:induction false} WordRunConcat(ns: seq<nat>, ks: seq<nat>)
    ensures WordRun(ns + ks) == WordRun(ns) + WordRun(ks)
  {
    hide WordBytes;
    if ns == [] {
      assert ns + ks == ks;
    } else {
      WordRunConcat(ns[1..], ks);
      assert (ns + ks)[1..] == ns[1..] + ks;
    }
  }

  /** The struct behind the offset 32: its only dynamic field starts after ten words. */
  lemma StructBody(keyT: Type, keyV: Value, order: seq<nat>, key: Bytes)
    requires AllFit(order) && |order| == 4
    requires HasType(keyT, keyV) && Static(keyT) && HeadSize(keyT) == 160 && Encode(keyT, keyV) == key
    ensures var ts, vs :=
        [keyT] + Repeat(WordT, 4) + [BlobT], [keyV] + WordValues(order) + [Blob([])];
      && HasType(TupleT(ts), Tuple(vs))
      && Encode(TupleT(ts), Tuple(vs)) == key + WordRun(order) + WordBytes(320) + WordBytes(0)
  {
    hide *;
    var ts, vs := Repeat(WordT, 4) + [BlobT], WordValues(order) + [Blob([])];
    NoComponents();
    EmptyBlob();
    HeadsCons(BlobT, Blob([]), [], [], 320);
    assert [BlobT] + [] == [BlobT] && [Blob([])] + [] == [Blob([])];
    WordHeads(order, [BlobT], [Blob([])], 320);
    HeadsCons(keyT, keyV, ts, vs, 320);
    assert [keyT] + ts == [keyT] + Repeat(WordT, 4) + [BlobT];
    assert [keyV] + vs == [keyV] + WordValues(order) + [Blob([])];
    EncodeTuple([keyT] + ts, [keyV] + vs);
    var words := WordRun(order) + (WordBytes(320) + []);
    assert key + words + (WordBytes(0) + [])
        == key + WordRun(order) + WordBytes(320) + WordBytes(0);
  }

  lemma BehindOffset(t: Type, v: Value)
    requires HasType(t, v) && !Static(t)
    ensures HasType(TupleT([t]), Tuple([v]))
    ensures Encode(TupleT([t]), Tuple([v])) == WordBytes(32) + Encode(t, v)
  {
    hide *;
    NoComponents();
    HeadsCons(t, v, [], [], 32);
    assert [t] + [] == [t] && [v] + [] == [v];
    EncodeTuple([t], [v]);
    assert WordBytes(32) + [] + (Encode(t, v) + []) == WordBytes(32) + Encode(t, v);
  }

  lemma StructIsAbi(key: seq<nat>, order: seq<nat>)
    requires AllFit(key) && AllFit(order) && |key| == 5 && |order| == 4
    ensures var v := Tuple([Tuple([Tuple(WordValues(key))] + WordValues(order) + [Blob([])])]);
      && HasType(SwapT, v)
      && Encode(SwapT, v)
        == WordBytes(32) + (WordRun(key) + WordRun(order) + WordBytes(320)) + WordBytes(0)
  {
    hide Encode, HasType, WordBytes, HeadSize, Static, WordRun, WordValues, Repeat, AllFit;
    var struct := [PoolKeyT] + Repeat(WordT, 4) + [BlobT];
    WordTuple(key);
    PoolKeyStatic();
    StructBody(PoolKeyT, Tuple(WordValues(key)), order, WordRun(key));
    BehindOffset(TupleT(struct), Tuple([Tuple(WordValues(key))] + WordValues(order) + [Blob([])]));
    var words := WordRun(key) + WordRun(order) + WordBytes(320);
    assert WordBytes(32) + (words + WordBytes(0)) == WordBytes(32) + words + WordBytes(0);
  }

  lemma EmptyBlob()
    ensures HasType(BlobT, Blob([])) && Encode(BlobT, Blob([])) == WordBytes(0) && !Static(BlobT)
  {
  }

  lemma PoolKeyStatic()
    ensures Static(PoolKeyT) && HeadSize(PoolKeyT) == 160
    ensures !Static(TupleT([PoolKeyT] + Repeat(WordT, 4) + [BlobT]))
  {
    assert BlobT in [PoolKeyT] + Repeat(WordT, 4) + [BlobT];
    RepeatWords(5);
  }

  lemma RepeatWords(n: nat)
    ensures HeadsSize(Repeat(WordT, n)) == 32 * n
    ensures forall t | t in Repeat(WordT, n) :: t == WordT
  {
  }

  function ActionsValue(params: seq<Bytes>): Value { Tuple([Blob(ACTIONS), List(Blobs(params))]) }

  function ExecuteValue(actions: Bytes, deadline: nat): Value {
    Tuple([Blob(COMMANDS), List(Blobs([actions])), Word(deadline)])
  }

  lemma BlobIsAbi(x: Bytes)
    ensures HasType(BlobT, Blob(x)) && Encode(BlobT, Blob(x)) == B(x) && !Static(BlobT)
    ensures |x| + 32 <= |B(x)| < |x| + 64
  {
  }

  lemma ListIsDynamic(t: Type)
    ensures !Static(ListT(t)) && HeadSize(ListT(t)) == 32
  {
  }

  lemma WordIsStatic(n: nat)
    requires n < WordLimit()
    ensures Static(WordT) && HeadSize(WordT) == 32
    ensures HasType(WordT, Word(n)) && Encode(WordT, Word(n)) == WordBytes(n)
  {
  }

  /** The literal offsets 64 and 128 point at the action bytes and at the parameter array. */
  lemma ActionsIsAbi(params: seq<Bytes>)
    requires |params| < WordLimit()
    ensures HasType(ActionsT, ActionsValue(params))
    ensures ActionsBytes(params) == Encode(ActionsT, ActionsValue(params))
  {
    hide Encode, HasType, Heads, Tails, HaveTypes, HeadsSize, HeadSize, Static, WordBytes, B,
      ArrBytes, WordLimit, Blobs, ActionsBytes, ExecuteBytes;
    var list := List(Blobs(params));
    NoComponents();
    BlobIsAbi(ACTIONS);
    ListIsDynamic(BlobT);
    ArrIsAbi(params);
    HeadsCons(ListT(BlobT), list, [], [], 128);
    assert [ListT(BlobT)] + [] == [ListT(BlobT)] && [list] + [] == [list];
    HeadsCons(BlobT, Blob(ACTIONS), [ListT(BlobT)], [list], 64);
    assert [BlobT] + [ListT(BlobT)] == [BlobT, ListT(BlobT)];
    assert [Blob(ACTIONS)] + [list] == [Blob(ACTIONS), list];
    EncodeTuple([BlobT, ListT(BlobT)], [Blob(ACTIONS), list]);
    ActionsLayout(params);
  }

  lemma ActionsLayout(params: seq<Bytes>)
    ensures ActionsBytes(params)
      == WordBytes(64) + (WordBytes(128) + []) + (B(ACTIONS) + (ArrBytes(params) + []))
    ensures |B(ACTIONS)| == 64 && |B(COMMANDS)| == 64
    ensures ActionsValue(params) == Tuple([Blob(ACTIONS), List(Blobs(params))])
  {
    hide WordBytes, ArrBytes;
  }

  /** The literal offsets 96 and 96 + len(commands) point at the commands and at the inputs. */
  lemma ExecuteIsAbi(actions: Bytes, deadline: nat)
    requires deadline < WordLimit()
    ensures HasType(ExecuteT, ExecuteValue(actions, deadline))
    ensures ExecuteBytes(actions, WordBytes(deadline))
      == SELECTOR + Encode(ExecuteT, ExecuteValue(actions, deadline))
  {
    hide Encode, HasType, Heads, Tails, HaveTypes, HeadsSize, HeadSize, Static, WordBytes, B,
      ArrBytes, WordLimit, Blobs, ActionsBytes, ExecuteBytes;
    var list := List(Blobs([actions]));
    NoComponents();
    SmallWords();
    BlobIsAbi(COMMANDS);
    ListIsDynamic(BlobT);
    WordIsStatic(deadline);
    ArrIsAbi([actions]);
    var next := 96 + |B(COMMANDS)|;
    HeadsCons(WordT, Word(deadline), [], [], next + |Encode(ListT(BlobT), list)|);
    assert [WordT] + [] == [WordT] && [Word(deadline)] + [] == [Word(deadline)];
    HeadsCons(ListT(BlobT), list, [WordT], [Word(deadline)], next);
    assert [ListT(BlobT)] + [WordT] == [ListT(BlobT), WordT];
    assert [list] + [Word(deadline)] == [list, Word(deadline)];
    HeadsCons(BlobT, Blob(COMMANDS), [ListT(BlobT), WordT], [list, Word(deadline)], 96);
    assert [BlobT] + [ListT(BlobT), WordT] == [BlobT, ListT(BlobT), WordT];
    assert [Blob(COMMANDS)] + [list, Word(deadline)] == [Blob(COMMANDS), list, Word(deadline)];
    EncodeTuple([BlobT, ListT(BlobT), WordT], [Blob(COMMANDS), list, Word(deadline)]);
    ExecuteLayout(actions, deadline);
  }

  lemma ExecuteLayout(actions: Bytes, deadline: nat)
    ensures ExecuteBytes(actions, WordBytes(deadline))
      == SELECTOR
        + (WordBytes(96) + (WordBytes(96 + |B(COMMANDS)|) + (WordBytes(deadline) + []))
          + (B(COMMANDS) + (ArrBytes([actions]) + [])))
    ensures ExecuteValue(actions, deadline)
      == Tuple([Blob(COMMANDS), List(Blobs([actions])), Word(deadline)])
  {
    hide WordBytes, ArrBytes, B;
  }

  // ---------- sizes ----------

  lemma ArrSize(xs: seq<Bytes>)
    ensures |ArrBytes(xs)| == 32 + 32 * |xs| + |JoinB(xs)|
  {
    hide WordBytes, JoinB, B;
    OffsetsSize(xs, 32 * |xs|);
  }

  lemma {:induction false} OffsetsSize(xs: seq<Bytes>, offset: nat)
    ensures |Offsets(xs, offset)| == 32 * |xs|
  {
    hide B;
    if xs != [] {
      OffsetsSize(xs[1..], offset + |B(xs[0])|);
    }
  }

  lemma JoinSize(x: Bytes, xs: seq<Bytes>)
    ensures |JoinB([x] + xs)| < |x| + 64 + |JoinB(xs)|
  {
    BlobIsAbi(x);
    assert ([x] + xs)[1..] == xs;
  }

  /** The whole call stays far below any length a word cannot hold. */
  lemma CallSize(swap: Bytes, pay: Bytes, take: Bytes)
    requires |swap| == 384 && |pay| == 64 && |take| == 64
    ensures |JoinB([swap, pay, take])| < 1000
    ensures |ActionsBytes([swap, pay, take])| < 2000
    ensures |JoinB([ActionsBytes([swap, pay, take])])| < 3000
  {
    hide ArrBytes, WordBytes, JoinB, B, Padding;
    NoBodies();
    JoinSize(take, []);
    assert [take] + [] == [take];
    JoinSize(pay, [take]);
    assert [pay] + [take] == [pay, take];
    JoinSize(swap, [pay, take]);
    assert [swap] + [pay, take] == [swap, pay, take];
    ArrSize([swap, pay, take]);
    BlobIsAbi(ACTIONS);
    var actions := ActionsBytes([swap, pay, take]);
    JoinSize(actions, []);
    assert [actions] + [] == [actions];
  }

  lemma NoBodies()
    ensures JoinB([]) == []
  {
  }

  lemma ExecuteSize(actions: Bytes, deadline: nat)
    requires |JoinB([actions])| < 3000
    ensures |ExecuteBytes(actions, WordBytes(deadline))| < 4000
  {
    hide ArrBytes, WordBytes, JoinB, B, Padding;
    ArrSize([actions]);
    BlobIsAbi(COMMANDS);
  }

  // ---------- the whole call ----------

  lemma EncRange(m: Meta, zero: bool, amount: int, timestamp: nat)
    ensures Enc(m, zero, amount, timestamp).Some?
      <==> AddressesFit(m) && 0 <= amount < WordLimit() && timestamp + 3600 < WordLimit()
  {
    hide Words, AddressesFit, AllFit, Head, Span, ArrBytes, B, WordBytes;
    WordsFit(Head(m, zero, amount));
    HeadFits(m, zero, amount);
  }

  lemma HeadFits(m: Meta, zero: bool, amount: int)
    ensures AllFit(Head(m, zero, amount)) <==> AddressesFit(m) && 0 <= amount < WordLimit()
  {
    hide WordLimit;
    SmallWords();
    var xs, head := [m.usdg, m.hkmn, m.hook], Head(m, zero, amount);
    assert head[4] == m.hook && head[6] == amount && {head[0], head[1]} == {m.usdg, m.hkmn};
    if AddressesFit(m) {
      assert xs[0] < WordLimit() && xs[1] < WordLimit() && xs[2] < WordLimit();
    }
    if AllFit(head) {
      assert head[0] < WordLimit() && head[1] < WordLimit() && head[4] < WordLimit();
      assert m.usdg in {head[0], head[1]} && m.hkmn in {head[0], head[1]};
    }
  }

  lemma EncValue(m: Meta, zero: bool, amount: int, timestamp: nat, swap: Bytes)
    requires SwapParam(m, zero, amount) == Some(swap) && timestamp + 3600 < WordLimit()
    ensures Enc(m, zero, amount, timestamp)
      == Some(ExecuteBytes(ActionsBytes(Params(m, zero, swap)), WordBytes(timestamp + 3600)))
    ensures forall actions, deadline :: ExecuteBytes(actions, deadline)[..4] == SELECTOR
  {
    hide SwapParam, ArrBytes, B;
  }

  lemma PairSizes(m: Meta, zero: bool, swap: Bytes)
    requires AddressesFit(m)
    ensures |Params(m, zero, swap)| == 3
    ensures Decode(PairT, Params(m, zero, swap)[1]) == Some(PairValue(Paid(m, zero), MAX_WORD))
    ensures Decode(PairT, Params(m, zero, swap)[2]) == Some(PairValue(Taken(m, zero), 0))
    ensures |swap| == 384 ==>
      && |ActionsBytes(Params(m, zero, swap))| < 2000
      && |JoinB([ActionsBytes(Params(m, zero, swap))])| < 3000
  {
    hide Decode, Encode, WordBytes, Span, ActionsBytes, JoinB, HasType;
    SmallWords();
    var xs := [m.usdg, m.hkmn, m.hook];
    assert xs[0] < WordLimit() && xs[1] < WordLimit();
    PairIsAbi(Paid(m, zero), MAX_WORD);
    PairIsAbi(Taken(m, zero), 0);
    DecodeEncode(PairT, PairValue(Paid(m, zero), MAX_WORD));
    DecodeEncode(PairT, PairValue(Taken(m, zero), 0));
    if |swap| == 384 {
      CallSize(swap, PairParam(Paid(m, zero), MAX_WORD), PairParam(Taken(m, zero), 0));
    }
  }

  /** `data` is an execute call that swaps, settles what is paid and takes what is bought. */
  ghost predicate Means(
      data: Bytes, swap: Bytes, actions: Bytes, m: Meta, zero: bool, amount: nat, deadline: nat)
  {
    && |data| >= 4 && data[..4] == SELECTOR
    && Decode(ExecuteT, data[4..]) == Some(ExecuteValue(actions, deadline))
    && Decode(ActionsT, actions) == Some(ActionsValue(Params(m, zero, swap)))
    && Decode(SwapT, swap) == Some(SwapValue(m, zero, amount))
    && Decode(PairT, Params(m, zero, swap)[1]) == Some(PairValue(Paid(m, zero), MAX_WORD))
    && Decode(PairT, Params(m, zero, swap)[2]) == Some(PairValue(Taken(m, zero), 0))
  }

  ghost predicate IsSwapCall(data: Bytes, m: Meta, zero: bool, amount: nat, deadline: nat) {
    exists swap, actions :: Means(data, swap, actions, m, zero, amount, deadline)
  }

  /**
    The encoder raises exactly when an address, the amount or the deadline does not fit a word.  Otherwise the receiving
    contracts decode the swap that was meant, whatever the token order and the amount.
   */
  lemma EncDecodes(m: Meta, zero: bool, amount: int, timestamp: nat)
    ensures Enc(m, zero, amount, timestamp).Some?
      <==> AddressesFit(m) && 0 <= amount < WordLimit() && timestamp + 3600 < WordLimit()
    ensures Enc(m, zero, amount, timestamp).Some? ==>
      IsSwapCall(Enc(m, zero, amount, timestamp).value, m, zero, amount, timestamp + 3600)
  {
    hide Enc, IsSwapCall, WordLimit, AddressesFit;
    EncRange(m, zero, amount, timestamp);
    if Enc(m, zero, amount, timestamp).Some? {
      EncMeans(m, zero, amount, timestamp);
    }
  }

  lemma EncMeans(m: Meta, zero: bool, amount: nat, timestamp: nat)
    requires AddressesFit(m) && amount < WordLimit() && timestamp + 3600 < WordLimit()
    ensures Enc(m, zero, amount, timestamp).Some?
    ensures IsSwapCall(Enc(m, zero, amount, timestamp).value, m, zero, amount, timestamp + 3600)
  {
    hide Enc, Decode, Encode, ActionsBytes, ExecuteBytes, Params, WordLimit, JoinB, AddressesFit,
      HasType, SwapParam, WordBytes;
    SwapIsAbi(m, zero, amount);
    var swap := Encode(SwapT, SwapValue(m, zero, amount));
    var actions := ActionsBytes(Params(m, zero, swap));
    SmallWords();
    DecodeEncode(SwapT, SwapValue(m, zero, amount));
    PairSizes(m, zero, swap);
    ActionsIsAbi(Params(m, zero, swap));
    DecodeEncode(ActionsT, ActionsValue(Params(m, zero, swap)));
    ExecuteIsAbi(actions, timestamp + 3600);
    ExecuteSize(actions, timestamp + 3600);
    DecodeEncode(ExecuteT, ExecuteValue(actions, timestamp + 3600));
    EncValue(m, zero, amount, timestamp, swap);
    var data := Enc(m, zero, amount, timestamp).value;
    assert data[4..] == Encode(ExecuteT, ExecuteValue(actions, timestamp + 3600));
    assert Means(data, swap, actions, m, zero, amount, timestamp + 3600);
  }
}

/** What the attestor reports for a finalised transaction. */
module Attestor {
  import opened ByteCodec
  import Depository
  import opened RelayBytes
  import opened Wrappers

  datatype Compiled = Compiled(program: nat, accounts: seq<nat>, data: Bytes)
  datatype TopLevel = TopLevel(call: Compiled, inner: seq<Compiled>)

  datatype Transaction = Transaction(
    keys: seq<Key>,
    calls: seq<TopLevel>,
    preBalances: map<nat, nat>,
    postBalances: map<nat, nat>)

  /** What is fixed outside the transaction: program addresses, derived addresses, mint lookups. */
  datatype Chain = Chain(
    depository: Key,
    vault: Key,
    computeBudget: Key,
    system: Key,
    token: Key,
    token2022: Key,
    vaultAta: (Key, Key) -> Key,
    mintOf: Key -> Option<Key>)

  /** A deposit as reported: `None` is native currency. `ordinal` names the message on chain. */
  datatype Message = Message(ordinal: nat, depositor: Key, token: Option<Key>, amount: int, id: Key)

  type Deposit = Depository.DepositEvent

  datatype Decoded = DepositNative(amount: U64, id: Key) | DepositToken(amount: U64, id: Key) | Other

  const NATIVE_TAG: Bytes := [13, 158, 13, 223, 95, 213, 28, 6]
  const TOKEN_TAG: Bytes := [11, 156, 96, 218, 39, 163, 180, 19]
  /** Direct transfers carry no id. */
  function ZeroId(): Key { seq(32, _ => 0) }

  predicate HasTag(data: Bytes, tag: Bytes) { |data| >= |tag| && data[..|tag|] == tag }

  function Decode(data: Bytes): Decoded {
    if |data| < 48 then Other
    else if HasTag(data, NATIVE_TAG) then DepositNative(ReadU64(data[8..16]), data[16..48])
    else if HasTag(data, TOKEN_TAG) then DepositToken(ReadU64(data[8..16]), data[16..48])
    else Other
  }

  /** The data of a deposit up to its id; what follows is not read. */
  function Written(tag: Bytes, amount: U64, id: Key): Bytes { tag + U64Bytes(amount) + id }

  /** The coder reads back what a client wrote. */
  lemma DecodeWritten(amount: U64, id: Key, rest: Bytes)
    ensures Decode(NATIVE_TAG + U64Bytes(amount) + id + rest) == DepositNative(amount, id)
    ensures Decode(TOKEN_TAG + U64Bytes(amount) + id + rest) == DepositToken(amount, id)
  {
    hide U64Bytes, ReadU64;
    U64RoundTrip(amount);
    var native := NATIVE_TAG + U64Bytes(amount) + id + rest;
    var token := TOKEN_TAG + U64Bytes(amount) + id + rest;
    assert native[..8] == NATIVE_TAG && native[8..16] == U64Bytes(amount) && native[16..48] == id;
    assert token[..8] == TOKEN_TAG && token[8..16] == U64Bytes(amount) && token[16..48] == id;
  }

  lemma ReadBack(tag: Bytes, data: Bytes)
    requires |tag| == 8 && |data| >= 48 && HasTag(data, tag)
    ensures Written(tag, ReadU64(data[8..16]), data[16..48]) == data[..48]
  {
    hide U64Bytes, ReadU64;
    U64OfBytes(data[8..16]);
    assert data[..48] == data[..8] + data[8..16] + data[16..48];
  }

  /** And it reads nothing else: the first 48 bytes of a deposit's data are those of its arguments. */
  lemma DecodeExact(data: Bytes, amount: U64, id: Key)
    ensures Decode(data) == DepositNative(amount, id) <==> Written(NATIVE_TAG, amount, id) <= data
    ensures Decode(data) == DepositToken(amount, id) <==> Written(TOKEN_TAG, amount, id) <= data
  {
    hide U64Bytes, ReadU64, Written, HasTag;
    WrittenIs(amount, id);
    if |data| >= 48 {
      var rest := data[48..];
      assert data == data[..48] + rest;
      if HasTag(data, NATIVE_TAG) { ReadBack(NATIVE_TAG, data); }
      if HasTag(data, TOKEN_TAG) { ReadBack(TOKEN_TAG, data); }
      DecodeWritten(amount, id, rest);
      assert Written(NATIVE_TAG, amount, id) <= data <==> data[..48] == Written(NATIVE_TAG, amount, id);
      assert Written(TOKEN_TAG, amount, id) <= data <==> data[..48] == Written(TOKEN_TAG, amount, id);
    }
  }

  lemma WrittenIs(amount: U64, id: Key)
    ensures Written(NATIVE_TAG, amount, id) == NATIVE_TAG + U64Bytes(amount) + id
    ensures Written(TOKEN_TAG, amount, id) == TOKEN_TAG + U64Bytes(amount) + id
    ensures |Written(NATIVE_TAG, amount, id)| == 48 == |Written(TOKEN_TAG, amount, id)|
  {
  }

  // ---------- instructions ----------

  function Flatten(calls: seq<TopLevel>): seq<Compiled> {
    if calls == [] then [] else calls[0].inner + Flatten(calls[1..])
  }

  function Outer(calls: seq<TopLevel>): (cs: seq<Compiled>)
    ensures |cs| == |calls|
  {
    if calls == [] then [] else [calls[0].call] + Outer(calls[1..])
  }

  /** The attestor's order: all top-level instructions, then all inner ones. */
  function Instructions(tx: Transaction): seq<Compiled> { Outer(tx.calls) + Flatten(tx.calls) }

  predicate InRange(tx: Transaction, c: Compiled) {
    && c.program < |tx.keys|
    && forall i | 0 <= i < |c.accounts| :: c.accounts[i] < |tx.keys|
  }

  function Account(tx: Transaction, c: Compiled, i: nat): Key
    requires InRange(tx, c) && i < |c.accounts|
  {
    tx.keys[c.accounts[i]]
  }

  function ProgramOf(tx: Transaction, c: Compiled): Key
    requires InRange(tx, c)
  {
    tx.keys[c.program]
  }

  predicate IsDeposit(tx: Transaction, chain: Chain, c: Compiled)
    requires InRange(tx, c)
  {
    ProgramOf(tx, c) == chain.depository && !Decode(c.data).Other?
  }

  /** Every index names a key, and what looks like a deposit has the five accounts that are read. */
  predicate Runs(tx: Transaction, chain: Chain, cs: seq<Compiled>) {
    forall c | c in cs :: InRange(tx, c) && (IsDeposit(tx, chain, c) ==> |c.accounts| >= 5)
  }

  /** What a successful transaction guarantees the attestor. */
  predicate Executed(tx: Transaction, chain: Chain) { Runs(tx, chain, Instructions(tx)) }

  // ---------- messages of the program's deposits ----------

  /** The message for the deposit instruction at place `i`: depositor third, mint fifth. */
  function MessageFor(tx: Transaction, chain: Chain, c: Compiled, i: nat): Message
    requires InRange(tx, c) && IsDeposit(tx, chain, c) && |c.accounts| >= 5
  {
    match Decode(c.data)
    case DepositNative(amount, id) => Message(i, Account(tx, c, 2), None, amount, id)
    case DepositToken(amount, id) => Message(i, Account(tx, c, 2), Some(Account(tx, c, 4)), amount, id)
  }

  /** The messages of a list of instructions, of which the first has place `i`. */
  function ProgramMessages(tx: Transaction, chain: Chain, cs: seq<Compiled>, i: nat): seq<Message>
    requires Runs(tx, chain, cs)
    decreases |cs|
  {
    if cs == [] then []
    else
      var later := ProgramMessages(tx, chain, cs[1..], i + 1);
      if IsDeposit(tx, chain, cs[0]) then [MessageFor(tx, chain, cs[0], i)] + later else later
  }

  function DepositOf(m: Message): Deposit { Depository.DepositEvent(m.depositor, m.token, m.amount, m.id) }

  function Deposits(ms: seq<Message>): seq<Deposit> {
    if ms == [] then [] else [DepositOf(ms[0])] + Deposits(ms[1..])
  }

  /** The deposit an instruction is reported as, its place aside. */
  function Asked(tx: Transaction, chain: Chain, c: Compiled): Deposit
    requires InRange(tx, c) && IsDeposit(tx, chain, c) && |c.accounts| >= 5
  {
    DepositOf(MessageFor(tx, chain, c, 0))
  }

  function AskedAll(tx: Transaction, chain: Chain, cs: seq<Compiled>): seq<Deposit>
    requires Runs(tx, chain, cs)
  {
    if cs == [] then []
    else
      var later := AskedAll(tx, chain, cs[1..]);
      if IsDeposit(tx, chain, cs[0]) then [Asked(tx, chain, cs[0])] + later else later
  }

  // ---------- the attestor ----------

  /** Everything but compute-budget settings. */
  function Relevant(tx: Transaction, chain: Chain, cs: seq<Compiled>): (r: seq<Compiled>)
    requires forall c | c in cs :: InRange(tx, c)
    ensures |r| <= |cs| && forall c | c in r :: c in cs
  {
    if cs == [] then []
    else
      assert cs[0] in cs;
      var later := Relevant(tx, chain, cs[1..]);
      if ProgramOf(tx, cs[0]) == chain.computeBudget then later else [cs[0]] + later
  }

  function FirstIndex(keys: seq<Key>, key: Key): int {
    if keys == [] then -1
    else if keys[0] == key then 0
    else
      var later := FirstIndex(keys[1..], key);
      if later < 0 then -1 else later + 1
  }

  /** What is made of the single instruction: an exception, nothing, or a direct transfer. */
  datatype Answer = Raised | Silent | Found(message: Message)

  /**
    A system transfer into the vault, read from its four-byte type and eight-byte amount.  The
    decoder raises on types it does not know and on transfers that are cut short.
   */
  function NativeTransfer(tx: Transaction, chain: Chain, c: Compiled): Answer
    requires InRange(tx, c)
  {
    if |c.data| < 4 || c.data[0] > 12 || c.data[1..4] != [0, 0, 0] then Raised
    else if c.data[0] != 2 then Silent
    else if |c.accounts| < 2 || |c.data| < 12 then Raised
    else if Account(tx, c, 1) != chain.vault then Silent
    else Found(Message(0, Account(tx, c, 0), None, ReadU64(c.data[4..12]), ZeroId()))
  }

  /** Where a token transfer goes, who signs it, its amount, and its mint if the data names one. */
  datatype TokenMove = TokenMove(destination: Key, authority: Key, mint: Option<Key>, amount: U64)

  datatype MoveRead = BadData | NoMove | Move(move: TokenMove)

  /** The decoders insist on the exact length of both kinds of transfer. */
  function DecodeTokenMove(tx: Transaction, c: Compiled): MoveRead
    requires InRange(tx, c)
  {
    if c.data == [] then NoMove
    else if c.data[0] == 3 then
      if |c.data| != 9 || |c.accounts| < 3 then BadData
      else Move(TokenMove(Account(tx, c, 1), Account(tx, c, 2), None, ReadU64(c.data[1..9])))
    else if c.data[0] == 12 then
      if |c.data| != 10 || |c.accounts| < 4 then BadData
      else
        Move(TokenMove(Account(tx, c, 2), Account(tx, c, 3), Some(Account(tx, c, 1)), ReadU64(c.data[1..9])))
    else NoMove
  }

  /** What the vault's token account gained, when the transaction records it. */
  function Gained(tx: Transaction, destination: Key): Option<int> {
    var i := FirstIndex(tx.keys, destination);
    if i >= 0 && i in tx.postBalances then
      var before: int, after: int :=
        if i in tx.preBalances then tx.preBalances[i] else 0, tx.postBalances[i];
      Some(after - before)
    else None
  }

  function TokenTransfer(tx: Transaction, chain: Chain, c: Compiled): Answer
    requires InRange(tx, c)
  {
    match DecodeTokenMove(tx, c)
    case BadData => Raised
    case NoMove => Silent
    case Move(move) =>
      var program := ProgramOf(tx, c);
      var mint := if move.mint.Some? then move.mint else chain.mintOf(move.destination);
      if move.amount == 0 || mint.None? then Silent
      else if move.destination != chain.vaultAta(mint.value, program) then Silent
      else
        var gained := if program == chain.token2022 then Gained(tx, move.destination) else None;
        var amount := if gained.Some? && gained.value < move.amount then gained.value else move.amount;
        Found(Message(0, move.authority, mint, amount, ZeroId()))
  }

  function DirectTransfer(tx: Transaction, chain: Chain, c: Compiled): Answer
    requires InRange(tx, c)
  {
    var program := ProgramOf(tx, c);
    if program == chain.system then NativeTransfer(tx, chain, c)
    else if program == chain.token || program == chain.token2022 then TokenTransfer(tx, chain, c)
    else Silent
  }

  /** `getDepositoryDepositMessages` for a transaction that succeeded; `None` is an exception. */
  method Messages(tx: Transaction, chain: Chain) returns (result: Option<seq<Message>>)
    requires Executed(tx, chain)
    ensures result == Reported(tx, chain)
  {
    hide Decode, DirectTransfer, Instructions, Relevant, Account, ProgramMessages, MessageFor;
    var instructions := Instructions(tx);
    var messages: seq<Message> := [];
    var i := 0;
    assert instructions[0..] == instructions;
    while i < |instructions|
      invariant 0 <= i <= |instructions|
      invariant messages + ProgramMessages(tx, chain, instructions[i..], i)
        == ProgramMessages(tx, chain, instructions, 0)
    {
      var c := instructions[i];
      assert c in instructions;
      MessagesStep(tx, chain, instructions, i);
      if ProgramOf(tx, c) == chain.depository {
        var decoded := Decode(c.data);
        if decoded.DepositNative? {
          messages := messages + [Message(i, Account(tx, c, 2), None, decoded.amount, decoded.id)];
        } else if decoded.DepositToken? {
          messages := messages
            + [Message(i, Account(tx, c, 2), Some(Account(tx, c, 4)), decoded.amount, decoded.id)];
        }
      }
      i := i + 1;
    }
    MessagesEnd(tx, chain, i);
    assert messages == ProgramMessages(tx, chain, instructions, 0);
    var relevant := Relevant(tx, chain, instructions);
    if messages == [] && |relevant| == 1 {
      assert relevant[0] in relevant;
      var direct := DirectTransfer(tx, chain, relevant[0]);
      if direct.Raised? { return None; }
      if direct.Found? {
        messages := [direct.message];
      }
    }
    return Some(messages);
  }

  lemma MessagesStep(tx: Transaction, chain: Chain, cs: seq<Compiled>, i: nat)
    requires Runs(tx, chain, cs) && i < |cs|
    ensures var c := cs[i];
      ProgramMessages(tx, chain, cs[i..], i)
        == (if ProgramOf(tx, c) != chain.depository then []
            else match Decode(c.data)
              case DepositNative(amount, id) => [Message(i, Account(tx, c, 2), None, amount, id)]
              case DepositToken(amount, id) =>
                [Message(i, Account(tx, c, 2), Some(Account(tx, c, 4)), amount, id)]
              case Other => [])
          + ProgramMessages(tx, chain, cs[i + 1..], i + 1)
  {
    hide Decode, Account;
    assert cs[i] in cs && cs[i..][1..] == cs[i + 1..];
  }

  lemma MessagesEnd(tx: Transaction, chain: Chain, i: nat)
    ensures ProgramMessages(tx, chain, [], i) == []
  {
  }

  function DirectOf(tx: Transaction, chain: Chain, relevant: seq<Compiled>): Option<seq<Message>>
    requires forall c | c in relevant :: InRange(tx, c)
  {
    if |relevant| != 1 then Some([])
    else match DirectTransfer(tx, chain, relevant[0])
      case Raised => None
      case Silent => Some([])
      case Found(m) => Some([m])
  }

  /** The messages of a transaction without program deposits. */
  function Direct(tx: Transaction, chain: Chain): Option<seq<Message>>
    requires Executed(tx, chain)
  {
    DirectOf(tx, chain, Relevant(tx, chain, Instructions(tx)))
  }

  /** All that is reported: the direct transfer counts only where the program saw no deposit. */
  function Reported(tx: Transaction, chain: Chain): Option<seq<Message>>
    requires Executed(tx, chain)
  {
    var messages := ProgramMessages(tx, chain, Instructions(tx), 0);
    if messages == [] then Direct(tx, chain) else Some(messages)
  }

  /** What the messages carry is what the instructions are reported as. */
  lemma {:induction false} DepositsOfMessages(tx: Transaction, chain: Chain, cs: seq<Compiled>, i: nat)
    requires Runs(tx, chain, cs)
    ensures Deposits(ProgramMessages(tx, chain, cs, i)) == AskedAll(tx, chain, cs)
    ensures |ProgramMessages(tx, chain, cs, i)| == |AskedAll(tx, chain, cs)|
    decreases |cs|
  {
    hide Decode, IsDeposit, Account;
    if cs != [] {
      assert cs[0] in cs;
      DepositsOfMessages(tx, chain, cs[1..], i + 1);
      var later := ProgramMessages(tx, chain, cs[1..], i + 1);
      if IsDeposit(tx, chain, cs[0]) {
        var m := MessageFor(tx, chain, cs[0], i);
        assert ([m] + later)[1..] == later;
        assert DepositOf(m) == Asked(tx, chain, cs[0]);
      }
    }
  }

  predicate IsMessageFor(tx: Transaction, chain: Chain, c: Compiled, m: Message) {
    && InRange(tx, c) && IsDeposit(tx, chain, c) && |c.accounts| >= 5
    && m == MessageFor(tx, chain, c, m.ordinal)
  }

  lemma {:induction false} MessagesAtPlaces(tx: Transaction, chain: Chain, cs: seq<Compiled>, i: nat)
    requires Runs(tx, chain, cs)
    ensures forall m | m in ProgramMessages(tx, chain, cs, i) ::
      i <= m.ordinal < i + |cs| && IsMessageFor(tx, chain, cs[m.ordinal - i], m)
    decreases |cs|
  {
    hide IsDeposit, InRange, Account, Decode;
    if cs != [] {
      assert cs[0] in cs;
      MessagesAtPlaces(tx, chain, cs[1..], i + 1);
    }
  }

  lemma OrdinalOf(tx: Transaction, chain: Chain, c: Compiled, i: nat)
    requires InRange(tx, c) && IsDeposit(tx, chain, c) && |c.accounts| >= 5
    ensures MessageFor(tx, chain, c, i).ordinal == i
  {
    hide Decode;
  }

  predicate Rising(ms: seq<Message>) { forall k, l | 0 <= k < l < |ms| :: ms[k].ordinal < ms[l].ordinal }

  lemma RisingFrom(m: Message, later: seq<Message>)
    requires Rising(later) && forall n | n in later :: m.ordinal < n.ordinal
    ensures Rising([m] + later)
  {
    assert forall l | 0 <= l < |later| :: later[l] in later;
  }

  lemma {:induction false} OrdinalsRise(tx: Transaction, chain: Chain, cs: seq<Compiled>, i: nat)
    requires Runs(tx, chain, cs)
    ensures Rising(ProgramMessages(tx, chain, cs, i))
    decreases |cs|
  {
    hide IsDeposit, InRange, Account, Decode, IsMessageFor, Rising;
    if cs != [] {
      assert cs[0] in cs;
      OrdinalsRise(tx, chain, cs[1..], i + 1);
      MessagesAtPlaces(tx, chain, cs[1..], i + 1);
      if IsDeposit(tx, chain, cs[0]) {
        OrdinalOf(tx, chain, cs[0], i);
        RisingFrom(MessageFor(tx, chain, cs[0], i), ProgramMessages(tx, chain, cs[1..], i + 1));
      }
    } else {
      NothingRises();
    }
  }

  lemma NothingRises()
    ensures Rising([])
  {
  }

  lemma {:induction false} EveryPlaceHasMessage(tx: Transaction, chain: Chain, cs: seq<Compiled>, i: nat, n: nat)
    requires Runs(tx, chain, cs) && n < |cs| && InRange(tx, cs[n]) && IsDeposit(tx, chain, cs[n])
    ensures exists m | m in ProgramMessages(tx, chain, cs, i) :: m.ordinal == i + n
    decreases |cs|
  {
    hide IsDeposit, InRange, Account, Decode;
    assert cs[0] in cs;
    var ms := ProgramMessages(tx, chain, cs, i);
    if n == 0 {
      assert ms[0] in ms && ms[0].ordinal == i + n;
    } else {
      EveryPlaceHasMessage(tx, chain, cs[1..], i + 1, n - 1);
      var m :| m in ProgramMessages(tx, chain, cs[1..], i + 1) && m.ordinal == i + n;
      assert m in ms;
    }
  }

  /**
    One message for each deposit instruction, in the order of the instructions, and its ordinal,
    which goes into the id of the deposit on chain, is the place of that instruction.
   */
  lemma OrdinalsArePlaces(tx: Transaction, chain: Chain)
    requires Executed(tx, chain)
    ensures var cs, ms := Instructions(tx), ProgramMessages(tx, chain, Instructions(tx), 0);
      && (forall m | m in ms :: m.ordinal < |cs| && IsMessageFor(tx, chain, cs[m.ordinal], m))
      && Rising(ms)
      && (forall n | 0 <= n < |cs| && InRange(tx, cs[n]) && IsDeposit(tx, chain, cs[n]) ::
            exists m | m in ms :: m.ordinal == n)
  {
    hide IsDeposit, InRange, Instructions, Runs, IsMessageFor, Rising;
    var cs := Instructions(tx);
    MessagesAtPlaces(tx, chain, cs, 0);
    OrdinalsRise(tx, chain, cs, 0);
    forall n | 0 <= n < |cs| && InRange(tx, cs[n]) && IsDeposit(tx, chain, cs[n])
      ensures exists m | m in ProgramMessages(tx, chain, cs, 0) :: m.ordinal == n
    {
      EveryPlaceHasMessage(tx, chain, cs, 0, n);
    }
  }

  // ---------- order does not matter ----------

  lemma {:induction false} AskedConcat(tx: Transaction, chain: Chain, a: seq<Compiled>, b: seq<Compiled>)
    requires Runs(tx, chain, a + b)
    ensures Runs(tx, chain, a) && Runs(tx, chain, b)
    ensures AskedAll(tx, chain, a + b) == AskedAll(tx, chain, a) + AskedAll(tx, chain, b)
  {
    hide IsDeposit, Asked, InRange;
    assert forall c | c in a :: c in a + b;
    assert forall c | c in b :: c in a + b;
    if a == [] {
      assert a + b == b;
    } else {
      assert (a + b)[1..] == a[1..] + b;
      AskedConcat(tx, chain, a[1..], b);
    }
  }

  lemma RunsOfPermutation(tx: Transaction, chain: Chain, a: seq<Compiled>, b: seq<Compiled>)
    requires Runs(tx, chain, a) && multiset(a) == multiset(b)
    ensures Runs(tx, chain, b)
  {
    hide IsDeposit, InRange;
    forall c | c in b ensures c in a {
      assert c in multiset(b);
    }
  }

  /** An instruction can be taken out of any place. */
  lemma AskedFrom(tx: Transaction, chain: Chain, before: seq<Compiled>, c: Compiled, after: seq<Compiled>)
    requires Runs(tx, chain, before + ([c] + after))
    ensures Runs(tx, chain, [c]) && Runs(tx, chain, before + after)
    ensures multiset(AskedAll(tx, chain, before + ([c] + after)))
      == multiset(AskedAll(tx, chain, [c])) + multiset(AskedAll(tx, chain, before + after))
  {
    hide IsDeposit, Asked, InRange, AskedAll;
    AskedConcat(tx, chain, before, [c] + after);
    AskedConcat(tx, chain, [c], after);
    assert Runs(tx, chain, before + after);
    AskedConcat(tx, chain, before, after);
  }

  /** Two orders of the same instructions report the same deposits. */
  lemma {:induction false} AskedOfPermutation(tx: Transaction, chain: Chain, a: seq<Compiled>, b: seq<Compiled>)
    requires Runs(tx, chain, a) && multiset(a) == multiset(b)
    ensures Runs(tx, chain, b)
    ensures multiset(AskedAll(tx, chain, a)) == multiset(AskedAll(tx, chain, b))
    decreases |a|
  {
    hide IsDeposit, Asked, InRange, Runs, AskedAll;
    RunsOfPermutation(tx, chain, a, b);
    if a == [] {
      assert |multiset(b)| == 0;
      assert b == a;
    } else {
      assert a[0] in multiset(a);
      var k := PlaceOf(a[0], b);
      var before, after := b[..k], b[k + 1..];
      assert a == [] + ([a[0]] + a[1..]) && [] + a[1..] == a[1..];
      SamePermutation(a, b, k);
      AskedFrom(tx, chain, [], a[0], a[1..]);
      AskedFrom(tx, chain, before, b[k], after);
      AskedOfPermutation(tx, chain, a[1..], before + after);
    }
  }

  lemma PlaceOf<T>(c: T, b: seq<T>) returns (k: nat)
    requires c in multiset(b)
    ensures k < |b| && b[k] == c
  {
    k :| 0 <= k < |b| && b[k] == c;
  }

  lemma SamePermutation<T>(a: seq<T>, b: seq<T>, k: nat)
    requires a != [] && k < |b| && b[k] == a[0] && multiset(a) == multiset(b)
    ensures b == b[..k] + ([b[k]] + b[k + 1..])
    ensures multiset(a[1..]) == multiset(b[..k] + b[k + 1..])
  {
    var rest := b[..k] + b[k + 1..];
    assert a == [a[0]] + a[1..];
    assert b == b[..k] + ([b[k]] + b[k + 1..]);
    assert multiset(b) == multiset(rest) + multiset{a[0]};
    assert multiset(a[1..]) == multiset(a) - multiset{a[0]};
  }

  // ---------- direct transfers ----------

  /** What the single transfer instruction itself asks to move. */
  function InstructionAmount(tx: Transaction, chain: Chain, c: Compiled): U64
    requires InRange(tx, c)
  {
    if ProgramOf(tx, c) == chain.system then (if |c.data| >= 12 then ReadU64(c.data[4..12]) else 0)
    else match DecodeTokenMove(tx, c)
      case Move(move) => move.amount
      case _ => 0
  }

  /** Where a transfer instruction moves its money to. */
  function DestinationOf(tx: Transaction, chain: Chain, c: Compiled): Option<Key>
    requires InRange(tx, c)
  {
    if ProgramOf(tx, c) == chain.system then (if |c.accounts| >= 2 then Some(Account(tx, c, 1)) else None)
    else match DecodeTokenMove(tx, c)
      case Move(move) => Some(move.destination)
      case _ => None
  }

  /** The account of the vault for native currency, or for the tokens of a mint under a token program. */
  function VaultFor(chain: Chain, token: Option<Key>, program: Key): Key {
    match token case None => chain.vault case Some(mint) => chain.vaultAta(mint, program)
  }

  /**
    A direct-transfer message stands alone, only where there is no program deposit, for a transfer
    into the vault's own account, and for no more than the one relevant instruction asked to move.
   */
  lemma DirectIsBounded(tx: Transaction, chain: Chain)
    requires Executed(tx, chain)
    ensures Direct(tx, chain).Some? ==> |Direct(tx, chain).value| <= 1
    ensures Direct(tx, chain).Some? && Direct(tx, chain).value != [] ==>
      && |Relevant(tx, chain, Instructions(tx))| == 1
      && var c, m := Relevant(tx, chain, Instructions(tx))[0], Direct(tx, chain).value[0];
      && InRange(tx, c)
      && DestinationOf(tx, chain, c) == Some(VaultFor(chain, m.token, ProgramOf(tx, c)))
      && m.amount <= InstructionAmount(tx, chain, c)
      && m.id == ZeroId() && m.ordinal == 0
      && ProgramOf(tx, c) in {chain.system, chain.token, chain.token2022}
  {
    hide Instructions;
    var relevant := Relevant(tx, chain, Instructions(tx));
    if |relevant| == 1 {
      assert relevant[0] in relevant;
      TransferBounded(tx, chain, relevant[0]);
    }
  }

  lemma TransferBounded(tx: Transaction, chain: Chain, c: Compiled)
    requires InRange(tx, c)
    ensures DirectTransfer(tx, chain, c).Found? ==>
      && var m := DirectTransfer(tx, chain, c).message;
      && DestinationOf(tx, chain, c) == Some(VaultFor(chain, m.token, ProgramOf(tx, c)))
      && m.amount <= InstructionAmount(tx, chain, c)
      && m.id == ZeroId() && m.ordinal == 0
      && ProgramOf(tx, c) in {chain.system, chain.token, chain.token2022}
  {
    hide ReadU64, Gained;
  }
}

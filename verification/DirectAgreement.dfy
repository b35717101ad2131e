/**
  A direct transfer against what the vault gains by it: the system program and the two token
  programs execute the instruction that the attestor decodes.
 */
module DirectAgreement {
  import opened Attestor
  import opened ByteCodec
  import opened DepositAgreement
  import Depository
  import Dispatch = DepositoryDispatch
  import opened RelayBytes
  import Runs' = DepositoryRuns
  import opened Wrappers

  // ---------- what the programs do ----------

  /** The mint of a key that is a token account. */
  type Mints = Key -> Option<Key>

  /** A refusal fails the transaction; what is no transfer is not described here. */
  datatype Effect = Refused | Credited(credits: seq<Credit>) | Elsewhere

  /** What the mint keeps of a token transfer; only mints of the newer program can take a fee. */
  function FeeFor(w: World, token: Option<Key>, amount: U64): nat {
    match token
    case None => 0
    case Some(mint) => Dispatch.TransferFee(w.env, mint, amount)
  }

  /** What a transfer between two accounts leaves with the destination; to itself it moves nothing. */
  function Arriving(w: World, token: Option<Key>, source: Key, destination: Key, amount: U64): U64
    requires FeeFor(w, token, amount) <= amount
  {
    if source == destination then 0 else amount - FeeFor(w, token, amount)
  }

  const SYSTEM_INSTRUCTIONS := 13

  /** `Transfer` of the system program: its number, then the lamports; the accounts are from and to. */
  function SystemEffect(w: World, chain: Chain, keys: seq<Key>, data: Bytes): Effect {
    if |data| < 4 || FromLittleEndian(data[..4]) >= SYSTEM_INSTRUCTIONS then Refused
    else if FromLittleEndian(data[..4]) != 2 then Elsewhere
    else
      match Dispatch.TakeU64(data[4..])
      case None => Refused
      case Some((lamports, _)) =>
        if |keys| < 2 then Refused
        else if keys[1] != chain.vault then Credited([])
        else Credited([Credit(None, Arriving(w, None, keys[0], keys[1], lamports))])
  }

  /** A token program moves tokens between accounts of one of its own mints. */
  function TokenMoved(
      w: World, mints: Mints, chain: Chain, program: Key, source: Key, destination: Key, amount: U64): Effect
  {
    match mints(destination)
    case None => Refused
    case Some(mint) =>
      if w.env.ownerOf(mint) != w.env.kindOf(program) || FeeFor(w, Some(mint), amount) > amount then Refused
      else if destination != chain.vaultAta(mint, program) then Credited([])
      else Credited([Credit(Some(mint), Arriving(w, Some(mint), source, destination, amount))])
  }

  /**
    `Transfer` is 3 and an amount, its accounts are source, destination and authority.
    `TransferChecked` is 12, an amount and the decimals, with the mint between source and
    destination.  Bytes behind them are not looked at.
   */
  function TokenEffect(w: World, mints: Mints, chain: Chain, program: Key, keys: seq<Key>, data: Bytes): Effect {
    if data == [] then Refused
    else if data[0] == 3 then
      match Dispatch.TakeU64(data[1..])
      case None => Refused
      case Some((amount, _)) =>
        if |keys| < 3 then Refused else TokenMoved(w, mints, chain, program, keys[0], keys[1], amount)
    else if data[0] == 12 then
      match Dispatch.TakeU64(data[1..])
      case None => Refused
      case Some((amount, rest)) =>
        if rest == [] || |keys| < 4 || mints(keys[2]) != Some(keys[1]) then Refused
        else TokenMoved(w, mints, chain, program, keys[0], keys[2], amount)
    else Elsewhere
  }

  function EffectOf(w: World, mints: Mints, tx: Transaction, chain: Chain, c: Compiled): Effect
    requires InRange(tx, c)
  {
    var program := ProgramOf(tx, c);
    if program == chain.system then SystemEffect(w, chain, KeysOf(tx, c), c.data)
    else if program == chain.token || program == chain.token2022 then
      TokenEffect(w, mints, chain, program, KeysOf(tx, c), c.data)
    else Elsewhere
  }

  /** The instruction went through, and did to the vault what its program does. */
  predicate Went(w: World, mints: Mints, tx: Transaction, chain: Chain, c: Compiled) {
    && InRange(tx, c)
    && (ProgramOf(tx, c) == chain.computeBudget ==> w.outside(c) == [])
    && match EffectOf(w, mints, tx, chain, c)
       case Refused => false
       case Credited(credits) => w.outside(c) == credits
       case Elsewhere => true
  }

  /** The programs are what their addresses say, and a mint that was looked up is the account's mint. */
  ghost predicate Deployed(w: World, mints: Mints, chain: Chain) {
    && chain.depository !in {chain.system, chain.token, chain.token2022, chain.computeBudget}
    && chain.system !in {chain.token, chain.token2022}
    && chain.computeBudget !in {chain.system, chain.token, chain.token2022}
    && w.env.kindOf(chain.token) == Depository.Token && w.env.kindOf(chain.token2022) == Depository.Token2022
    && forall key | chain.mintOf(key).Some? :: mints(key) == chain.mintOf(key)
  }

  ghost predicate Faithful(w: World, mints: Mints, tx: Transaction, chain: Chain) {
    Deployed(w, mints, chain) && forall c | c in Instructions(tx) :: Went(w, mints, tx, chain, c)
  }

  // ---------- the instruction and its report ----------

  function SourceOf(tx: Transaction, c: Compiled): Option<Key>
    requires InRange(tx, c)
  {
    if c.accounts == [] then None else Some(Account(tx, c, 0))
  }

  /** What is lost between the amount of a transfer and the vault's account. */
  function LossOf(w: World, tx: Transaction, chain: Chain, c: Compiled, token: Option<Key>): nat
    requires InRange(tx, c)
  {
    var amount := InstructionAmount(tx, chain, c);
    if SourceOf(tx, c) == Some(VaultFor(chain, token, ProgramOf(tx, c))) then amount
    else FeeFor(w, token, amount)
  }

  /** Whether the transaction's own balances are looked at. */
  predicate Measured(tx: Transaction, chain: Chain, c: Compiled, token: Option<Key>)
    requires InRange(tx, c)
  {
    && ProgramOf(tx, c) == chain.token2022
    && Gained(tx, VaultFor(chain, token, ProgramOf(tx, c))).Some?
  }

  lemma WordTag(data: Bytes)
    requires |data| >= 4
    ensures FromLittleEndian(data[..4]) >= SYSTEM_INSTRUCTIONS <==> data[0] > 12 || data[1..4] != [0, 0, 0]
    ensures data[0] <= 12 && data[1..4] == [0, 0, 0] ==> FromLittleEndian(data[..4]) == data[0]
  {
    var d := data[..4];
    assert d[1..] == [data[1], data[2], data[3]] == data[1..4];
    assert d[1..][1..] == [data[2], data[3]] && d[1..][1..][1..] == [data[3]];
    assert d[1..][1..][1..][1..] == [];
    assert FromLittleEndian([data[3]]) == data[3];
    var x: int, y: int := data[2], data[3];
    assert FromLittleEndian([data[2], data[3]]) == x + 256 * y;
  }

  /** The system program's transfers are reported with the amount it moves, and none makes the oracle raise. */
  lemma SystemReported(w: World, mints: Mints, tx: Transaction, chain: Chain, c: Compiled)
    requires Deployed(w, mints, chain) && Went(w, mints, tx, chain, c) && ProgramOf(tx, c) == chain.system
    ensures var a := DirectTransfer(tx, chain, c);
      && !a.Raised?
      && (a.Found? ==>
            && a.message.token == None && a.message.amount == InstructionAmount(tx, chain, c)
            && LossOf(w, tx, chain, c, None) <= InstructionAmount(tx, chain, c)
            && w.outside(c) == [Credit(None, InstructionAmount(tx, chain, c) - LossOf(w, tx, chain, c, None))])
  {
    hide ReadU64, FromLittleEndian, Deployed;
    if |c.data| >= 4 { WordTag(c.data); }
    if |c.data| >= 12 { assert c.data[4..][..8] == c.data[4..12]; }
  }

  /** A token transfer with bytes behind its arguments: the program ignores them. */
  predicate IsLong(tx: Transaction, chain: Chain, c: Compiled)
    requires InRange(tx, c)
  {
    && (ProgramOf(tx, c) == chain.token || ProgramOf(tx, c) == chain.token2022)
    && ((|c.data| > 9 && c.data[0] == 3) || (|c.data| > 10 && c.data[0] == 12))
  }

  /** What a token program did when the oracle finds a transfer, and when the oracle raises. */
  lemma TokenReported(w: World, mints: Mints, tx: Transaction, chain: Chain, c: Compiled)
    requires Deployed(w, mints, chain) && Went(w, mints, tx, chain, c)
    requires ProgramOf(tx, c) == chain.token || ProgramOf(tx, c) == chain.token2022
    ensures var a := DirectTransfer(tx, chain, c);
      && (a.Raised? <==> IsLong(tx, chain, c))
      && (a.Found? ==>
            && var token, amount := a.message.token, InstructionAmount(tx, chain, c);
            && LossOf(w, tx, chain, c, token) <= amount
            && w.outside(c) == [Credit(token, amount - LossOf(w, tx, chain, c, token))])
  {
    hide ReadU64, Gained;
    if |c.data| >= 9 { assert c.data[1..][..8] == c.data[1..9]; }
  }

  /** The amount of a report: that of the instruction, or what the recorded balances gained if it is less. */
  lemma AmountReported(tx: Transaction, chain: Chain, c: Compiled)
    requires InRange(tx, c) && chain.system != chain.token2022 && DirectTransfer(tx, chain, c).Found?
    ensures var m, amount := DirectTransfer(tx, chain, c).message, InstructionAmount(tx, chain, c);
      m.amount ==
        if Measured(tx, chain, c, m.token) && Gained(tx, VaultFor(chain, m.token, ProgramOf(tx, c))).value < amount
        then Gained(tx, VaultFor(chain, m.token, ProgramOf(tx, c))).value else amount
  {
    hide ReadU64, Gained;
  }

  // ---------- the whole transaction ----------

  predicate IsRelevant(tx: Transaction, chain: Chain, c: Compiled) {
    InRange(tx, c) && ProgramOf(tx, c) != chain.computeBudget
  }

  lemma {:induction false} RelevantCounts(tx: Transaction, chain: Chain, cs: seq<Compiled>, x: Compiled)
    requires forall c | c in cs :: InRange(tx, c)
    ensures multiset(Relevant(tx, chain, cs))[x] == if IsRelevant(tx, chain, x) then multiset(cs)[x] else 0
  {
    hide InRange;
    if cs != [] {
      assert cs[0] in cs && cs == [cs[0]] + cs[1..];
      RelevantCounts(tx, chain, cs[1..], x);
    }
  }

  /** In any order the relevant instructions are the same ones. */
  lemma RelevantOfPermutation(tx: Transaction, chain: Chain, a: seq<Compiled>, b: seq<Compiled>)
    requires multiset(a) == multiset(b) && forall c | c in a :: InRange(tx, c)
    ensures forall c | c in b :: InRange(tx, c)
    ensures multiset(Relevant(tx, chain, a)) == multiset(Relevant(tx, chain, b))
  {
    hide Relevant, InRange, IsRelevant;
    forall c | c in b ensures InRange(tx, c) {
      assert c in multiset(b);
    }
    forall x ensures multiset(Relevant(tx, chain, a))[x] == multiset(Relevant(tx, chain, b))[x] {
      RelevantCounts(tx, chain, a, x);
      RelevantCounts(tx, chain, b, x);
    }
  }

  lemma Single(a: seq<Compiled>, b: seq<Compiled>)
    requires multiset(a) == multiset(b) && |a| == 1
    ensures a == b
  {
    assert |multiset(b)| == |b|;
    assert |multiset(a)| == |a|;
    assert b[0] in multiset(b);
  }

  predicate BudgetIsIdle(w: World, tx: Transaction, chain: Chain, cs: seq<Compiled>) {
    forall c | c in cs ::
      InRange(tx, c) && (ProgramOf(tx, c) == chain.computeBudget ==> ActionsOf(w, tx, chain, c) == Some([]))
  }

  /** Only the relevant instructions do anything. */
  lemma {:induction false} OnlyRelevantAct(w: World, tx: Transaction, chain: Chain, cs: seq<Compiled>)
    requires Reach(w, tx, chain, cs) && BudgetIsIdle(w, tx, chain, cs)
    ensures Reach(w, tx, chain, Relevant(tx, chain, cs))
    ensures Actions(w, tx, chain, cs) == Actions(w, tx, chain, Relevant(tx, chain, cs))
  {
    hide InRange, ActionsOf;
    if cs != [] {
      assert cs[0] in cs;
      OnlyRelevantAct(w, tx, chain, cs[1..]);
      var later := Relevant(tx, chain, cs[1..]);
      assert ([cs[0]] + later)[1..] == later;
    }
  }

  lemma OneAction(w: World, tx: Transaction, chain: Chain, c: Compiled)
    requires Reach(w, tx, chain, [c])
    ensures Actions(w, tx, chain, [c]) == ActionsOf(w, tx, chain, c).value
  {
    hide ActionsOf;
    assert [c][1..] == [];
  }

  /** What the vault holds more of an asset after the transaction. */
  ghost function Gain(w: World, tx: Transaction, chain: Chain, order: seq<Compiled>, asset: Option<Key>): int
    requires Succeeded(w, tx, chain, order)
  {
    Depository.Balance(Runs'.Run(w.d, w.before, Actions(w, tx, chain, order)).vault, asset)
      - Depository.Balance(w.before.vault, asset)
  }

  /** Where the transaction records the balances of a token account of the vault, they are its own. */
  ghost predicate Recorded(w: World, tx: Transaction, chain: Chain, order: seq<Compiled>)
    requires Succeeded(w, tx, chain, order)
  {
    forall mint | Gained(tx, chain.vaultAta(mint, chain.token2022)).Some? ::
      Gained(tx, chain.vaultAta(mint, chain.token2022)).value == Gain(w, tx, chain, order, Some(mint))
  }

  lemma CreditsOne(credit: Credit)
    ensures Credits([credit]) == [Depository.DirectCredit(credit.asset, credit.amount)]
  {
    assert [credit][1..] == [] && Credits([]) == [];
  }

  lemma CreditGains(d: Depository.Deployment, s: Depository.State, credit: Credit)
    requires Depository.Sound(s)
    ensures Depository.Balance(Runs'.Run(d, s, Credits([credit])).vault, credit.asset)
      == Depository.Balance(s.vault, credit.asset) + credit.amount
  {
    CreditsOne(credit);
    var a := Depository.DirectCredit(credit.asset, credit.amount);
    assert [a][1..] == [];
    Runs'.StepSound(d, s, a);
  }

  lemma BudgetIdle(w: World, mints: Mints, tx: Transaction, chain: Chain, order: seq<Compiled>)
    requires Faithful(w, mints, tx, chain) && multiset(order) == multiset(Instructions(tx))
    ensures BudgetIsIdle(w, tx, chain, order)
  {
    hide EffectOf, Instructions, InRange;
    forall c | c in order
      ensures InRange(tx, c) && (ProgramOf(tx, c) == chain.computeBudget ==> ActionsOf(w, tx, chain, c) == Some([]))
    {
      assert c in multiset(order) && c in Instructions(tx);
      assert Went(w, mints, tx, chain, c);
    }
  }

  /** With a single relevant instruction the transaction does what that instruction does. */
  lemma SingleActs(w: World, mints: Mints, tx: Transaction, chain: Chain, order: seq<Compiled>, c: Compiled)
    requires Succeeded(w, tx, chain, order) && Faithful(w, mints, tx, chain) && Executed(tx, chain)
    requires Relevant(tx, chain, Instructions(tx)) == [c]
    ensures c in Instructions(tx) && Reach(w, tx, chain, [c])
    ensures Actions(w, tx, chain, order) == ActionsOf(w, tx, chain, c).value
  {
    hide Instructions, Relevant, ActionsOf, Succeed, Went, InRange, IsDeposit, Deployed;
    BudgetIdle(w, mints, tx, chain, order);
    RelevantOfPermutation(tx, chain, Instructions(tx), order);
    Single([c], Relevant(tx, chain, order));
    OnlyRelevantAct(w, tx, chain, order);
    OneAction(w, tx, chain, c);
    assert c in [c];
  }

  /**
    A direct transfer is never reported with less than the vault gains by it.  It is reported with
    exactly that if the transaction's balances are looked at, or if nothing is lost on the way.
   */
  lemma DirectIsGained(w: World, mints: Mints, tx: Transaction, chain: Chain, order: seq<Compiled>)
    requires Succeeded(w, tx, chain, order) && Faithful(w, mints, tx, chain) && Recorded(w, tx, chain, order)
    requires Executed(tx, chain) && Direct(tx, chain).Some? && Direct(tx, chain).value != []
    ensures |Relevant(tx, chain, Instructions(tx))| == 1
    ensures var c, m := Relevant(tx, chain, Instructions(tx))[0], Direct(tx, chain).value[0];
      && InRange(tx, c)
      && 0 <= Gain(w, tx, chain, order, m.token) <= m.amount
      && Gain(w, tx, chain, order, m.token)
        == InstructionAmount(tx, chain, c) - LossOf(w, tx, chain, c, m.token)
      && (m.amount == Gain(w, tx, chain, order, m.token)
          <==> Measured(tx, chain, c, m.token) || LossOf(w, tx, chain, c, m.token) == 0)
  {
    hide Instructions, DirectTransfer, InstructionAmount, LossOf, Actions, Succeed, EffectOf, Gained, Runs'.Run;
    var relevant := Relevant(tx, chain, Instructions(tx));
    var c, m := relevant[0], Direct(tx, chain).value[0];
    assert relevant == [c];
    SingleActs(w, mints, tx, chain, order, c);
    assert Went(w, mints, tx, chain, c);
    FoundOutside(w, mints, tx, chain, c);
    AmountReported(tx, chain, c);
    CreditGains(w.d, w.before, w.outside(c)[0]);
    assert w.outside(c) == [w.outside(c)[0]];
  }

  /** Both kinds of transfer at once. */
  lemma FoundOutside(w: World, mints: Mints, tx: Transaction, chain: Chain, c: Compiled)
    requires InRange(tx, c) && Deployed(w, mints, chain) && Went(w, mints, tx, chain, c)
    requires DirectTransfer(tx, chain, c).Found?
    ensures ProgramOf(tx, c) != chain.depository
    ensures var token, amount := DirectTransfer(tx, chain, c).message.token, InstructionAmount(tx, chain, c);
      && LossOf(w, tx, chain, c, token) <= amount
      && w.outside(c) == [Credit(token, amount - LossOf(w, tx, chain, c, token))]
      && (ProgramOf(tx, c) == chain.token2022 ==> token.Some?)
  {
    hide NativeTransfer, InstructionAmount, LossOf, Went, Gained;
    if ProgramOf(tx, c) == chain.system {
      SystemReported(w, mints, tx, chain, c);
    } else {
      TokenReported(w, mints, tx, chain, c);
    }
  }

  /**
    On a transaction that went through, the oracle raises exactly for a single token transfer with
    bytes behind its arguments.
   */
  lemma RaisesIffLong(w: World, mints: Mints, tx: Transaction, chain: Chain)
    requires Faithful(w, mints, tx, chain) && Executed(tx, chain)
    ensures Reported(tx, chain) == None
      <==> && ProgramMessages(tx, chain, Instructions(tx), 0) == []
           && |Relevant(tx, chain, Instructions(tx))| == 1
           && var c := Relevant(tx, chain, Instructions(tx))[0];
           && InRange(tx, c) && IsLong(tx, chain, c)
  {
    hide Instructions, EffectOf, NativeTransfer, TokenTransfer, IsLong, Deployed, ProgramMessages;
    var relevant := Relevant(tx, chain, Instructions(tx));
    if |relevant| == 1 {
      var c := relevant[0];
      assert c in relevant;
      assert Went(w, mints, tx, chain, c);
      RaisedIsLong(w, mints, tx, chain, c);
    }
  }

  lemma RaisedIsLong(w: World, mints: Mints, tx: Transaction, chain: Chain, c: Compiled)
    requires InRange(tx, c) && Deployed(w, mints, chain) && Went(w, mints, tx, chain, c)
    ensures DirectTransfer(tx, chain, c).Raised? <==> IsLong(tx, chain, c)
  {
    hide NativeTransfer, TokenTransfer, Went;
    if ProgramOf(tx, c) == chain.system {
      SystemReported(w, mints, tx, chain, c);
    } else if ProgramOf(tx, c) == chain.token || ProgramOf(tx, c) == chain.token2022 {
      TokenReported(w, mints, tx, chain, c);
    }
  }

  // ---------- a transfer that is not measured, and one that is too long ----------

  /** A transfer of 100 from account 0 to account 1, authorised by account 2, and some bytes more. */
  function MoveData(more: Bytes): Bytes { [3] + U64Bytes(100) + more }

  function MoveCall(more: Bytes): Compiled { Compiled(3, [0, 1, 2], MoveData(more)) }

  function MoveTransaction(more: Bytes): Transaction {
    Transaction([KeyAt(0), KeyAt(1), KeyAt(2), KeyAt(3)], [TopLevel(MoveCall(more), [])], map[], map[])
  }

  function MoveMints(): Mints { k => if k == KeyAt(1) then Some(KeyAt(9)) else None }

  function MoveChain(): Chain {
    Chain(KeyAt(4), KeyAt(5), KeyAt(6), KeyAt(7), KeyAt(8), KeyAt(3), (_, _) => KeyAt(1), MoveMints())
  }

  /** The mint takes one unit, so 99 arrive. */
  function MoveWorld(): World {
    World(
      FeeWorld().d, FeeWorld().before,
      FeeWorld().env.(kindOf := k => if k == KeyAt(8) then Depository.Token else Depository.Token2022),
      _ => [Credit(Some(KeyAt(9)), 99)])
  }

  lemma KeysApart(i: nat, j: nat)
    requires i < j < 256
    ensures KeyAt(i) != KeyAt(j)
  {
    assert KeyAt(i)[0] == i && KeyAt(j)[0] == j;
  }

  lemma MoveKeysApart()
    ensures forall i, j | 0 <= i < j < 10 :: KeyAt(i) != KeyAt(j)
  {
    hide KeyAt;
    forall i, j | 0 <= i < j < 10 ensures KeyAt(i) != KeyAt(j) {
      KeysApart(i, j);
    }
  }

  lemma MoveRead(more: Bytes)
    ensures |MoveData(more)| == 9 + |more| && MoveData(more)[0] == 3
    ensures Dispatch.TakeU64(MoveData(more)[1..]) == Some((100, more))
    ensures ReadU64(MoveData(more)[1..9]) == 100
  {
    hide U64Bytes, ReadU64;
    U64RoundTrip(100);
    var data := MoveData(more);
    assert data[1..] == U64Bytes(100) + more && data[1..9] == U64Bytes(100);
    assert data[1..][..8] == U64Bytes(100) && data[1..][8..] == more;
  }

  lemma MoveGoes(more: Bytes)
    ensures Instructions(MoveTransaction(more)) == [MoveCall(more)]
    ensures Faithful(MoveWorld(), MoveMints(), MoveTransaction(more), MoveChain())
    ensures Relevant(MoveTransaction(more), MoveChain(), [MoveCall(more)]) == [MoveCall(more)]
    ensures !IsDeposit(MoveTransaction(more), MoveChain(), MoveCall(more))
  {
    hide KeyAt, MoveData, Went;
    MoveKeysApart();
    OneCall(MoveTransaction(more));
    assert [MoveCall(more)][1..] == [];
    MoveWent(more);
  }

  lemma MoveWent(more: Bytes)
    ensures Went(MoveWorld(), MoveMints(), MoveTransaction(more), MoveChain(), MoveCall(more))
  {
    hide KeyAt, MoveData, Dispatch.TakeU64;
    MoveKeysApart();
    MoveRead(more);
    assert KeysOf(MoveTransaction(more), MoveCall(more)) == [KeyAt(0), KeyAt(1), KeyAt(2)];
  }

  lemma MoveActs(more: Bytes)
    ensures InRange(MoveTransaction(more), MoveCall(more))
    ensures ActionsOf(MoveWorld(), MoveTransaction(more), MoveChain(), MoveCall(more))
      == Some([Depository.DirectCredit(Some(KeyAt(9)), 99)])
  {
    hide KeyAt, MoveData, Credits, Dispatch.Dispatch;
    MoveKeysApart();
    CreditsOne(Credit(Some(KeyAt(9)), 99));
  }

  lemma MoveSucceeds(more: Bytes)
    ensures Succeeded(MoveWorld(), MoveTransaction(more), MoveChain(), [MoveCall(more)])
    ensures Executed(MoveTransaction(more), MoveChain())
    ensures ProgramMessages(MoveTransaction(more), MoveChain(), [MoveCall(more)], 0) == []
  {
    hide KeyAt, MoveData, Depository.Sound, LoadAccount, AccountBytes, EffectOf, Relevant, IsDeposit, ActionsOf,
         Faithful;
    MoveGoes(more);
    MoveActs(more);
    FeeAccountLoads();
    var w, tx, chain, c := MoveWorld(), MoveTransaction(more), MoveChain(), MoveCall(more);
    assert [c][1..] == [];
    var a := Depository.DirectCredit(Some(KeyAt(9)), 99);
    OneAction(w, tx, chain, c);
    assert [a][1..] == [];
    Runs'.StepSound(w.d, w.before, a);
    NothingLeft(w.d, Runs'.Step(w.d, w.before, a));
  }

  /** Without recorded balances the oracle reports the hundred that were sent, of which 99 arrived. */
  lemma UnmeasuredIsOverreported()
    ensures exists w, mints, tx, chain, order ::
      && Succeeded(w, tx, chain, order) && Faithful(w, mints, tx, chain) && Recorded(w, tx, chain, order)
      && Executed(tx, chain) && Direct(tx, chain).Some? && |Direct(tx, chain).value| == 1
      && Gain(w, tx, chain, order, Direct(tx, chain).value[0].token) < Direct(tx, chain).value[0].amount
  {
    hide KeyAt, Succeeded, Faithful, Executed, MoveWorld, MoveData, Gain, Instructions, Relevant;
    var w, mints, tx, chain, order := MoveWorld(), MoveMints(), MoveTransaction([]), MoveChain(), [MoveCall([])];
    MoveGoes([]);
    MoveSucceeds([]);
    MoveFound();
    DirectIsGained(w, mints, tx, chain, order);
  }

  lemma MoveFound()
    ensures var tx, c := MoveTransaction([]), MoveCall([]);
      && DirectTransfer(tx, MoveChain(), c).Found?
      && var m := DirectTransfer(tx, MoveChain(), c).message;
      && m.token == Some(KeyAt(9)) && m.amount == 100
      && !Measured(tx, MoveChain(), c, m.token)
      && LossOf(MoveWorld(), tx, MoveChain(), c, m.token) == 1
    ensures forall key :: Gained(MoveTransaction([]), key) == None
  {
    hide KeyAt, MoveData;
    MoveKeysApart();
    MoveRead([]);
  }

  /** One byte behind the amount, which the program ignores, and the oracle raises on a deposit that arrived. */
  lemma LongTransferRaises()
    ensures exists w, mints, tx, chain, order ::
      && Succeeded(w, tx, chain, order) && Faithful(w, mints, tx, chain) && Executed(tx, chain)
      && Gain(w, tx, chain, order, Some(KeyAt(9))) == 99 && Reported(tx, chain) == None
  {
    hide KeyAt, Succeeded, Faithful, Executed, MoveWorld, MoveData, Gain, Instructions, Relevant, ProgramMessages;
    var w, mints, tx, chain, order := MoveWorld(), MoveMints(), MoveTransaction([0]), MoveChain(), [MoveCall([0])];
    MoveGoes([0]);
    MoveSucceeds([0]);
    MoveRead([0]);
    MoveGain([0]);
    RaisesIffLong(w, mints, tx, chain);
  }

  lemma MoveGain(more: Bytes)
    ensures Succeeded(MoveWorld(), MoveTransaction(more), MoveChain(), [MoveCall(more)])
    ensures Gain(MoveWorld(), MoveTransaction(more), MoveChain(), [MoveCall(more)], Some(KeyAt(9))) == 99
  {
    hide KeyAt, Succeeded, Instructions, Relevant, Runs'.Run, EffectOf, MoveData;
    var w, tx, chain, c := MoveWorld(), MoveTransaction(more), MoveChain(), MoveCall(more);
    MoveGoes(more);
    MoveSucceeds(more);
    MoveKeysApart();
    SingleActs(w, MoveMints(), tx, chain, [c], c);
    CreditGains(w.d, w.before, Credit(Some(KeyAt(9)), 99));
  }
}

/**
  The attestor against the program: what it reports of a finalised transaction, and the events that
  the depository logs when it executes the same instructions, in whatever order the chain did.
 */
module DepositAgreement {
  import opened Attestor
  import opened ByteCodec
  import Depository
  import Dispatch = DepositoryDispatch
  import opened RelayBytes
  import Runs' = DepositoryRuns
  import opened Wrappers

  /** A direct credit of the vault by an instruction of another program. */
  datatype Credit = Credit(asset: Option<Key>, amount: U64)

  /** Deployment, state before the transaction, runtime, and what other programs' instructions credit. */
  datatype World = World(
    d: Depository.Deployment, before: Depository.State, env: Dispatch.Env, outside: Compiled -> seq<Credit>)

  function KeysOf(tx: Transaction, c: Compiled): (keys: seq<Key>)
    requires InRange(tx, c)
    ensures |keys| == |c.accounts| && forall i | 0 <= i < |keys| :: keys[i] == Account(tx, c, i)
  {
    seq(|c.accounts|, i requires 0 <= i < |c.accounts| => Account(tx, c, i))
  }

  function Credits(cs: seq<Credit>): (actions: seq<Depository.Action>)
    ensures forall a | a in actions :: a.DirectCredit?
  {
    if cs == [] then [] else [Depository.DirectCredit(cs[0].asset, cs[0].amount)] + Credits(cs[1..])
  }

  /** What one instruction makes the depository do. */
  function ActionsOf(w: World, tx: Transaction, chain: Chain, c: Compiled): Option<seq<Depository.Action>>
    requires InRange(tx, c)
  {
    if ProgramOf(tx, c) != chain.depository then Some(Credits(w.outside(c)))
    else Dispatch.Dispatch(w.env, KeysOf(tx, c), c.data).Map(a => [a])
  }

  /** The instructions name keys, and those of the depository reach a handler. */
  predicate Reach(w: World, tx: Transaction, chain: Chain, cs: seq<Compiled>) {
    forall c | c in cs :: InRange(tx, c) && ActionsOf(w, tx, chain, c).Some?
  }

  function Actions(w: World, tx: Transaction, chain: Chain, cs: seq<Compiled>): seq<Depository.Action>
    requires Reach(w, tx, chain, cs)
  {
    if cs == [] then []
    else
      assert cs[0] in cs;
      ActionsOf(w, tx, chain, cs[0]).value + Actions(w, tx, chain, cs[1..])
  }

  /** No handler refuses. */
  predicate Succeed(d: Depository.Deployment, s: Depository.State, actions: seq<Depository.Action>)
    requires Depository.Sound(s)
    decreases |actions|
  {
    actions != [] ==>
      && Depository.ErrorOf(d, s, actions[0]) == None
      && (Runs'.StepSound(d, s, actions[0]);
          Succeed(d, Runs'.Step(d, s, actions[0]), actions[1..]))
  }

  /** The transaction succeeded: its instructions, executed in this order, all went through. */
  ghost predicate Succeeded(w: World, tx: Transaction, chain: Chain, order: seq<Compiled>) {
    && Depository.Sound(w.before)
    && multiset(order) == multiset(Instructions(tx))
    && Reach(w, tx, chain, order)
    && Succeed(w.d, w.before, Actions(w, tx, chain, order))
  }

  ghost function Events(w: World, tx: Transaction, chain: Chain, order: seq<Compiled>): seq<Deposit>
    requires Succeeded(w, tx, chain, order)
  {
    Runs'.Events(w.d, w.before, Actions(w, tx, chain, order))
  }

  // ---------- one instruction ----------

  /** The fee that a reported deposit loses on its way. */
  function FeeOf(w: World, x: Deposit): nat {
    match x.token
    case None => 0
    case Some(mint) => Dispatch.TransferFee(w.env, mint, x.amount)
  }

  function Arrived(w: World, x: Deposit): Deposit { x.(amount := x.amount - FeeOf(w, x)) }

  function ArrivedAll(w: World, xs: seq<Deposit>): (r: seq<Deposit>)
    ensures |r| == |xs| && forall i | 0 <= i < |xs| :: r[i] == Arrived(w, xs[i])
  {
    seq(|xs|, i requires 0 <= i < |xs| => Arrived(w, xs[i]))
  }

  lemma SlicesAgree(data: Bytes)
    requires |data| >= 48
    ensures data[8..][..8] == data[8..16] && data[8..][8..][..32] == data[16..48]
  {
  }

  /** The attestor's coder and the program's entry choose the same handler and read the same arguments. */
  lemma ReadersAgree(data: Bytes)
    ensures match Decode(data)
      case DepositNative(amount, id) =>
        && data[..8] == Dispatch.DEPOSIT_NATIVE
        && Dispatch.TakeArgs(data[8..]) == Some(Dispatch.DepositArgs(amount, id))
      case DepositToken(amount, id) =>
        && data[..8] == Dispatch.DEPOSIT_TOKEN
        && Dispatch.TakeArgs(data[8..]) == Some(Dispatch.DepositArgs(amount, id))
      case Other =>
        |data| >= 8 && data[..8] in {Dispatch.DEPOSIT_NATIVE, Dispatch.DEPOSIT_TOKEN} ==>
          Dispatch.TakeArgs(data[8..]) == None
  {
    hide ReadU64;
    if |data| >= 48 { SlicesAgree(data); }
  }

  /** The handler call that a reported deposit stands for. */
  predicate IsCallFor(w: World, a: Depository.Action, x: Deposit) {
    match a
    case DepositNative(_, amount, depositor, id, _) => x == Depository.DepositEvent(depositor, None, amount, id)
    case DepositToken(t) =>
      x == Depository.DepositEvent(t.depositor, Some(t.mint), t.amount, t.id) && t.fee == FeeOf(w, x)
    case _ => false
  }

  /**
    An instruction of the depository becomes a deposit call exactly if the attestor takes it for a
    deposit, and then with the depositor, mint, amount and id that are reported.
   */
  lemma InstructionAgrees(w: World, tx: Transaction, chain: Chain, c: Compiled)
    requires InRange(tx, c) && ProgramOf(tx, c) == chain.depository && ActionsOf(w, tx, chain, c).Some?
    ensures |ActionsOf(w, tx, chain, c).value| == 1
    ensures var a := ActionsOf(w, tx, chain, c).value[0];
      && (IsDeposit(tx, chain, c) ==> |c.accounts| >= 5 && IsCallFor(w, a, Asked(tx, chain, c)))
      && (!IsDeposit(tx, chain, c) ==> !a.DepositNative? && !a.DepositToken?)
  {
    hide Decode, Dispatch.TakeArgs, Account;
    ReadersAgree(c.data);
  }

  /** Such a call, if it goes through, logs the reported deposit less its fee, which it can afford. */
  lemma CallArrives(w: World, s: Depository.State, a: Depository.Action, x: Deposit)
    requires Depository.Sound(s) && Depository.ErrorOf(w.d, s, a) == None && IsCallFor(w, a, x)
    ensures Runs'.Emitted(w.d, s, a) == [Arrived(w, x)] && FeeOf(w, x) <= x.amount
  {
  }

  lemma ReachRuns(w: World, tx: Transaction, chain: Chain, cs: seq<Compiled>)
    requires Reach(w, tx, chain, cs)
    ensures Runs(tx, chain, cs)
  {
    hide ActionsOf, IsDeposit, InRange;
    forall c | c in cs ensures InRange(tx, c) && (IsDeposit(tx, chain, c) ==> |c.accounts| >= 5) {
      if IsDeposit(tx, chain, c) {
        DepositIsCall(tx, chain, c);
        InstructionAgrees(w, tx, chain, c);
      }
    }
  }

  lemma DepositIsCall(tx: Transaction, chain: Chain, c: Compiled)
    requires InRange(tx, c)
    ensures IsDeposit(tx, chain, c) ==> ProgramOf(tx, c) == chain.depository
  {
  }

  // ---------- a whole transaction ----------

  lemma {:induction false} RunConcat(
      d: Depository.Deployment, s: Depository.State, a: seq<Depository.Action>, b: seq<Depository.Action>)
    requires Depository.Sound(s)
    ensures Runs'.Events(d, s, a + b) == Runs'.Events(d, s, a) + Runs'.Events(d, Runs'.Run(d, s, a), b)
    ensures Succeed(d, s, a + b) <==> Succeed(d, s, a) && Succeed(d, Runs'.Run(d, s, a), b)
    decreases |a|
  {
    hide Depository.ErrorOf, Depository.EventOf, Depository.Sound, Runs'.Step;
    if a == [] {
      assert a + b == b;
    } else {
      Runs'.StepSound(d, s, a[0]);
      assert (a + b)[1..] == a[1..] + b;
      RunConcat(d, Runs'.Step(d, s, a[0]), a[1..], b);
    }
  }

  lemma {:induction false} CreditsLogNothing(
      d: Depository.Deployment, s: Depository.State, actions: seq<Depository.Action>)
    requires Depository.Sound(s) && forall a | a in actions :: a.DirectCredit?
    ensures Runs'.Events(d, s, actions) == []
    decreases |actions|
  {
    hide Depository.Sound, Runs'.Step;
    if actions != [] {
      assert actions[0] in actions;
      Runs'.StepSound(d, s, actions[0]);
      CreditsLogNothing(d, Runs'.Step(d, s, actions[0]), actions[1..]);
    }
  }

  /** The events of one instruction that went through, and the fee it could afford. */
  lemma InstructionEvents(w: World, tx: Transaction, chain: Chain, c: Compiled, s: Depository.State)
    requires Depository.Sound(s) && Reach(w, tx, chain, [c])
    requires Succeed(w.d, s, ActionsOf(w, tx, chain, c).value)
    ensures Runs(tx, chain, [c])
    ensures Runs'.Events(w.d, s, ActionsOf(w, tx, chain, c).value) == ArrivedAll(w, AskedAll(tx, chain, [c]))
    ensures forall x | x in AskedAll(tx, chain, [c]) :: FeeOf(w, x) <= x.amount
  {
    hide ActionsOf, Asked, Arrived, FeeOf, InRange, Depository.Sound, Depository.ErrorOf, Depository.EventOf,
      Runs'.Step, Runs'.Emitted, IsCallFor, IsDeposit;
    ReachRuns(w, tx, chain, [c]);
    assert c in [c] && [c][1..] == [];
    var a := ActionsOf(w, tx, chain, c).value;
    DepositIsCall(tx, chain, c);
    if ProgramOf(tx, c) == chain.depository {
      InstructionAgrees(w, tx, chain, c);
      assert a[1..] == [];
      Runs'.StepSound(w.d, s, a[0]);
      assert Runs'.Events(w.d, s, a) == Runs'.Emitted(w.d, s, a[0]) + [];
      if IsDeposit(tx, chain, c) {
        CallArrives(w, s, a[0], Asked(tx, chain, c));
      } else {
        OthersLogNothing(w.d, s, a[0]);
      }
    } else {
      OthersCredit(w, tx, chain, c);
      CreditsLogNothing(w.d, s, a);
    }
  }

  lemma OthersLogNothing(d: Depository.Deployment, s: Depository.State, a: Depository.Action)
    requires !a.DepositNative? && !a.DepositToken?
    ensures Runs'.Emitted(d, s, a) == []
  {
  }

  lemma OthersCredit(w: World, tx: Transaction, chain: Chain, c: Compiled)
    requires InRange(tx, c) && ProgramOf(tx, c) != chain.depository
    ensures ActionsOf(w, tx, chain, c).Some? && !IsDeposit(tx, chain, c)
    ensures forall a | a in ActionsOf(w, tx, chain, c).value :: a.DirectCredit?
  {
  }

  /** In the order of execution, event by event: the reported deposit less its fee, which it could afford. */
  lemma {:induction false} EventsArrive(
      w: World, tx: Transaction, chain: Chain, cs: seq<Compiled>, s: Depository.State)
    requires Depository.Sound(s) && Reach(w, tx, chain, cs) && Succeed(w.d, s, Actions(w, tx, chain, cs))
    ensures Runs(tx, chain, cs)
    ensures Runs'.Events(w.d, s, Actions(w, tx, chain, cs)) == ArrivedAll(w, AskedAll(tx, chain, cs))
    ensures forall x | x in AskedAll(tx, chain, cs) :: FeeOf(w, x) <= x.amount
    decreases |cs|
  {
    hide ActionsOf, Asked, Arrived, FeeOf, InRange, IsDeposit, Depository.Sound, Succeed, Runs'.Events, Runs;
    ReachRuns(w, tx, chain, cs);
    if cs == [] {
      NothingHappens(w, tx, chain, s);
    } else {
      assert cs[0] in cs && cs == [cs[0]] + cs[1..];
      var first, later := ActionsOf(w, tx, chain, cs[0]).value, Actions(w, tx, chain, cs[1..]);
      RunConcat(w.d, s, first, later);
      InstructionEvents(w, tx, chain, cs[0], s);
      EventsArrive(w, tx, chain, cs[1..], Runs'.Run(w.d, s, first));
      AskedConcat(tx, chain, [cs[0]], cs[1..]);
    }
  }

  lemma NothingHappens(w: World, tx: Transaction, chain: Chain, s: Depository.State)
    requires Depository.Sound(s)
    ensures Runs'.Events(w.d, s, []) == [] && AskedAll(tx, chain, []) == []
  {
  }

  lemma {:induction false} ArrivedOfPermutation(w: World, xs: seq<Deposit>, ys: seq<Deposit>)
    requires multiset(xs) == multiset(ys)
    ensures multiset(ArrivedAll(w, xs)) == multiset(ArrivedAll(w, ys))
    decreases |xs|
  {
    hide Arrived, ArrivedAll;
    if xs == [] {
      assert |multiset(ys)| == 0;
      assert ys == xs;
    } else {
      var k, rest := FirstAmong(xs, ys);
      ArrivedOfPermutation(w, xs[1..], rest);
      ArrivedSplit(w, xs, 0, xs[1..]);
      ArrivedSplit(w, ys, k, rest);
    }
  }

  lemma FirstAmong(xs: seq<Deposit>, ys: seq<Deposit>) returns (k: nat, rest: seq<Deposit>)
    requires xs != [] && multiset(xs) == multiset(ys)
    ensures k < |ys| && ys[k] == xs[0] && rest == ys[..k] + ys[k + 1..]
    ensures xs[1..] == xs[..0] + xs[1..] && multiset(xs[1..]) == multiset(rest)
  {
    assert xs[0] in multiset(xs);
    k := PlaceOf(xs[0], ys);
    rest := ys[..k] + ys[k + 1..];
    SamePermutation(xs, ys, k);
  }

  lemma ArrivedSplit(w: World, xs: seq<Deposit>, k: nat, rest: seq<Deposit>)
    requires k < |xs| && rest == xs[..k] + xs[k + 1..]
    ensures multiset(ArrivedAll(w, xs)) == multiset(ArrivedAll(w, rest)) + multiset{Arrived(w, xs[k])}
  {
    hide Arrived;
    var all, before, after := ArrivedAll(w, xs), ArrivedAll(w, xs[..k]), ArrivedAll(w, xs[k + 1..]);
    assert all == before + [Arrived(w, xs[k])] + after;
    assert ArrivedAll(w, rest) == before + after;
  }

  ghost function ProgramDeposits(tx: Transaction, chain: Chain): seq<Deposit>
    requires Executed(tx, chain)
  {
    Deposits(ProgramMessages(tx, chain, Instructions(tx), 0))
  }

  /**
    In whatever order a transaction's instructions were executed: the events are the reported
    deposits less their fees, each as often, and the attestor looks for a direct transfer exactly if
    the program logged nothing.
   */
  lemma AttestorSeesEveryDeposit(w: World, tx: Transaction, chain: Chain, order: seq<Compiled>)
    requires Succeeded(w, tx, chain, order)
    ensures Executed(tx, chain)
    ensures multiset(Events(w, tx, chain, order)) == multiset(ArrivedAll(w, ProgramDeposits(tx, chain)))
    ensures forall x | x in ProgramDeposits(tx, chain) :: FeeOf(w, x) <= x.amount
    ensures if Events(w, tx, chain, order) == [] then Reported(tx, chain) == Direct(tx, chain)
      else Reported(tx, chain).Some?
           && |Reported(tx, chain).value| == |Events(w, tx, chain, order)|
           && Deposits(Reported(tx, chain).value) == ProgramDeposits(tx, chain)
  {
    hide Actions, Succeed, Runs'.Events, AskedAll, ProgramMessages, Direct, Instructions, Runs, Arrived, FeeOf, Reach;
    EventsArrive(w, tx, chain, order, w.before);
    AskedOfPermutation(tx, chain, order, Instructions(tx));
    DepositsOfMessages(tx, chain, Instructions(tx), 0);
    var asked := AskedAll(tx, chain, Instructions(tx));
    ArrivedOfPermutation(w, AskedAll(tx, chain, order), asked);
    SameSize(Events(w, tx, chain, order), ArrivedAll(w, asked));
    forall x | x in asked ensures FeeOf(w, x) <= x.amount {
      assert x in multiset(asked);
    }
  }

  lemma SameSize(xs: seq<Deposit>, ys: seq<Deposit>)
    requires multiset(xs) == multiset(ys)
    ensures |xs| == |ys|
  {
    assert |multiset(xs)| == |xs| && |multiset(ys)| == |ys|;
  }

  // ---------- fees ----------

  function Total(xs: seq<Deposit>): int {
    if xs == [] then 0 else xs[0].amount + Total(xs[1..])
  }

  lemma {:induction false} TotalSplit(xs: seq<Deposit>, k: nat)
    requires k < |xs|
    ensures Total(xs) == xs[k].amount + Total(xs[..k] + xs[k + 1..])
  {
    if k == 0 {
      assert xs[..0] + xs[1..] == xs[1..];
    } else {
      var rest := xs[..k] + xs[k + 1..];
      TotalSplit(xs[1..], k - 1);
      assert rest[1..] == xs[1..][..k - 1] + xs[1..][k..];
    }
  }

  lemma {:induction false} TotalOfPermutation(xs: seq<Deposit>, ys: seq<Deposit>)
    requires multiset(xs) == multiset(ys)
    ensures Total(xs) == Total(ys)
    decreases |xs|
  {
    hide Total;
    if xs == [] {
      assert |multiset(ys)| == 0;
      assert ys == xs;
    } else {
      var k, rest := FirstAmong(xs, ys);
      TotalOfPermutation(xs[1..], rest);
      TotalSplit(xs, 0);
      TotalSplit(ys, k);
    }
  }

  /** What is lost on the way is lost from the total. */
  lemma {:induction false} TotalArrived(w: World, xs: seq<Deposit>)
    ensures Total(ArrivedAll(w, xs)) <= Total(xs)
    ensures Total(ArrivedAll(w, xs)) == Total(xs) <==> forall x | x in xs :: FeeOf(w, x) == 0
  {
    hide FeeOf;
    if xs != [] {
      TotalArrived(w, xs[1..]);
      assert ArrivedAll(w, xs)[1..] == ArrivedAll(w, xs[1..]);
      assert xs == [xs[0]] + xs[1..];
    }
  }

  /** The events are the reported deposits exactly if the mints took no fee from any of them. */
  lemma AgreesIffNoFee(w: World, tx: Transaction, chain: Chain, order: seq<Compiled>)
    requires Succeeded(w, tx, chain, order)
    ensures Executed(tx, chain)
    ensures multiset(Events(w, tx, chain, order)) == multiset(ProgramDeposits(tx, chain))
      <==> forall x | x in ProgramDeposits(tx, chain) :: FeeOf(w, x) == 0
  {
    hide Total, FeeOf, Arrived, Events, ProgramDeposits, Executed, Succeeded;
    AttestorSeesEveryDeposit(w, tx, chain, order);
    var deposits := ProgramDeposits(tx, chain);
    TotalArrived(w, deposits);
    if multiset(Events(w, tx, chain, order)) == multiset(deposits) {
      TotalOfPermutation(ArrivedAll(w, deposits), deposits);
    } else if forall x | x in deposits :: FeeOf(w, x) == 0 {
      NothingLost(w, deposits);
    }
  }

  lemma NothingLost(w: World, xs: seq<Deposit>)
    requires forall x | x in xs :: FeeOf(w, x) == 0
    ensures ArrivedAll(w, xs) == xs
  {
  }

  // ---------- a deposit that costs a fee ----------

  function KeyAt(i: nat): Key { seq(32, _ => (i % 256) as Byte) }

  function FeeData(): Bytes { TOKEN_TAG + U64Bytes(100) + ZeroId() }

  /** `deposit_token` by the program at place 10, with its ten accounts in order. */
  function FeeCall(): Compiled { Compiled(10, [0, 1, 2, 3, 4, 5, 6, 7, 8, 9], FeeData()) }

  function FeeTransaction(): Transaction {
    Transaction(seq(11, i requires 0 <= i => KeyAt(i)), [TopLevel(FeeCall(), [])], map[], map[])
  }

  function FeeChain(): Chain {
    Chain(KeyAt(10), KeyAt(3), KeyAt(11), KeyAt(9), KeyAt(12), KeyAt(7), (_, _) => KeyAt(6), _ => None)
  }

  /** A mint that takes one unit of every deposit. */
  function FeeWorld(): World {
    World(
      Depository.Deployment(_ => KeyAt(0), (_, _, _) => false, KeyAt(10), KeyAt(1), _ => KeyAt(3), 255, 0),
      Depository.State(AccountBytes(Config(KeyAt(1), KeyAt(13), 255, Some(KeyAt(14)))), map[], map[]),
      Dispatch.Env(
        KeyAt(0), (_, _) => true, (_, _) => true, _ => Depository.Token2022, _ => Depository.Token2022,
        (_, _, _) => KeyAt(6), (_, _) => 1, (_, _) => None),
      _ => [])
  }

  lemma FeeActions()
    ensures var w, tx, chain := FeeWorld(), FeeTransaction(), FeeChain();
      && InRange(tx, FeeCall())
      && ActionsOf(w, tx, chain, FeeCall()) == Some([Depository.DepositToken(Depository.TokenDeposit(
           KeyAt(2), ZeroId(), KeyAt(4), Depository.Token2022, Depository.Token2022, KeyAt(3), true, 100, 1, true))])
  {
    hide U64Bytes, ReadU64, AccountBytes, KeyAt;
    DecodeWritten(100, ZeroId(), []);
    assert FeeData() == TOKEN_TAG + U64Bytes(100) + ZeroId() + [];
    ReadersAgree(FeeData());
    var keys := KeysOf(FeeTransaction(), FeeCall());
    assert forall i | 0 <= i < 10 :: keys[i] == KeyAt(i);
  }

  lemma FeeAccountLoads()
    ensures Depository.Sound(FeeWorld().before)
    ensures LoadAccount(FeeWorld().before.account)
      == Some(Config(KeyAt(1), KeyAt(13), 255, Some(KeyAt(14))))
  {
    hide KeyAt, LoadAccount, AccountBytes;
    Runs'.FreshLoads(Config(KeyAt(1), KeyAt(13), 255, Some(KeyAt(14))));
  }

  lemma FeeTransactionSucceeds()
    ensures Instructions(FeeTransaction()) == [FeeCall()]
    ensures Succeeded(FeeWorld(), FeeTransaction(), FeeChain(), [FeeCall()])
  {
    hide KeyAt, LoadAccount, AccountBytes, ActionsOf, Depository.Sound, FeeData, Dispatch.Dispatch;
    var w, tx, chain := FeeWorld(), FeeTransaction(), FeeChain();
    var order := [FeeCall()];
    OneCall(tx);
    FeeActions();
    FeeAccountLoads();
    var a := ActionsOf(w, tx, chain, FeeCall()).value[0];
    assert order[1..] == [] && ActionsOf(w, tx, chain, FeeCall()).value == [a] && [a][1..] == [];
    assert Actions(w, tx, chain, order) == [a];
    assert Depository.ErrorOf(w.d, w.before, a) == None;
    Runs'.StepSound(w.d, w.before, a);
    NothingLeft(w.d, Runs'.Step(w.d, w.before, a));
  }

  lemma OneCall(tx: Transaction)
    requires |tx.calls| == 1 && tx.calls[0].inner == []
    ensures Instructions(tx) == [tx.calls[0].call]
  {
    assert tx.calls == [tx.calls[0]] && tx.calls[1..] == [];
    assert Outer(tx.calls[1..]) == [] && Flatten(tx.calls[1..]) == [];
  }

  lemma NothingLeft(d: Depository.Deployment, s: Depository.State)
    requires Depository.Sound(s)
    ensures Succeed(d, s, [])
  {
  }

  /** A transaction that went through and whose only event is not the deposit that is reported. */
  lemma FeesPartThem()
    ensures exists w, tx, chain, order ::
      && Succeeded(w, tx, chain, order) && Executed(tx, chain)
      && multiset(Events(w, tx, chain, order)) != multiset(ProgramDeposits(tx, chain))
  {
    hide KeyAt, ActionsOf, Succeeded, Executed, Events, FeeData, Asked, IsCallFor, FeeWorld, FeeChain;
    var w, tx, chain, order := FeeWorld(), FeeTransaction(), FeeChain(), [FeeCall()];
    FeeTransactionSucceeds();
    AgreesIffNoFee(w, tx, chain, order);
    FeeIsReported();
  }

  lemma FeeIsReported()
    requires Executed(FeeTransaction(), FeeChain())
    ensures exists x :: x in ProgramDeposits(FeeTransaction(), FeeChain()) && FeeOf(FeeWorld(), x) == 1
  {
    hide KeyAt, U64Bytes, ReadU64;
    var w, tx, chain := FeeWorld(), FeeTransaction(), FeeChain();
    OneCall(tx);
    DepositsOfMessages(tx, chain, Instructions(tx), 0);
    assert [FeeCall()][1..] == [];
    DecodeWritten(100, ZeroId(), []);
    assert FeeData() == TOKEN_TAG + U64Bytes(100) + ZeroId() + [];
    var x := Asked(tx, chain, FeeCall());
    assert ProgramDeposits(tx, chain) == [x];
    assert FeeOf(w, x) == 1;
  }
}

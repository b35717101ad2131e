/** Whole runs of the depository: any interleaving of handlers and direct credits. */
module DepositoryRuns {
  import opened Depository
  import opened Ed25519Check
  import opened RelayBytes
  import opened Wrappers

  /** A refused instruction leaves no trace: the runtime discards its writes. */
  function Step(d: Deployment, s: State, a: Action): State
    requires Sound(s)
  {
    if ErrorOf(d, s, a) == None then Effect(d, s, a) else s
  }

  lemma LoadedIsCurrent(s: State)
    requires Sound(s) && LoadAccount(s.account).Some?
    ensures |s.account| == CURRENT_SIZE
  {
    if |s.account| == LEGACY_SIZE {
      LegacyNotLoadable(s.account);
    }
  }

  lemma StoredLoads(s: State, c: Config)
    requires Sound(s) && LoadAccount(s.account).Some?
    ensures |AccountBytes(c)| <= CURRENT_SIZE == |s.account| == |StoreAccount(s.account, c)|
    ensures LoadAccount(StoreAccount(s.account, c)) == Some(c)
  {
    LoadedIsCurrent(s);
    LoadBack(c, s.account[|AccountBytes(c)|..]);
  }

  lemma FreshLoads(c: Config)
    requires c.domain.Some?
    ensures |AccountBytes(c)| == CURRENT_SIZE && LoadAccount(AccountBytes(c)) == Some(c)
  {
    LoadBack(c, []);
    assert AccountBytes(c) + [] == AccountBytes(c);
  }

  lemma StepSound(d: Deployment, s: State, a: Action)
    requires Sound(s)
    ensures Sound(Step(d, s, a))
  {
    hide LoadAccount, AccountBytes, StoreAccount, LegacyBytes, ExecuteError, TokenError, NativeError;
    if ErrorOf(d, s, a) == None {
      match a
      case Initialize(signer, allocator, chainId) =>
        FreshLoads(Config(signer, allocator, d.vaultBump, Some(DomainOf(d, chainId))));
      case SetAllocator(_, key) =>
        StoredLoads(s, LoadAccount(s.account).value.(allocator := key));
      case SetOwner(_, key) =>
        StoredLoads(s, LoadAccount(s.account).value.(owner := key));
      case Migrate(_, chainId, _, _) =>
        FreshLoads(LegacyConfig(s.account, DomainOf(d, chainId)));
      case _ =>
    }
  }

  function Run(d: Deployment, s: State, actions: seq<Action>): (t: State)
    requires Sound(s)
    ensures Sound(t)
    decreases |actions|
  {
    if actions == [] then s
    else
      StepSound(d, s, actions[0]);
      Run(d, Step(d, s, actions[0]), actions[1..])
  }

  /** The requests that a run has paid, in order. */
  function Paid(d: Deployment, s: State, actions: seq<Action>): seq<TransferRequest>
    requires Sound(s)
    decreases |actions|
  {
    if actions == [] then []
    else
      StepSound(d, s, actions[0]);
      (if actions[0].Execute? && ErrorOf(d, s, actions[0]) == None
       then [actions[0].call.request] else [])
        + Paid(d, Step(d, s, actions[0]), actions[1..])
  }

  /** What a run has put into the vault. */
  function Credited(d: Deployment, s: State, actions: seq<Action>, asset: Asset): nat
    requires Sound(s)
    decreases |actions|
  {
    if actions == [] then 0
    else
      StepSound(d, s, actions[0]);
      (if ErrorOf(d, s, actions[0]) == None then CreditOf(actions[0], asset) else 0)
        + Credited(d, Step(d, s, actions[0]), actions[1..], asset)
  }

  function CreditOf(a: Action, asset: Asset): nat {
    match a
    case DepositNative(_, amount, _, _, _) => if asset == None then amount else 0
    case DepositToken(t) => if asset == Some(t.mint) && t.fee <= t.amount then t.amount - t.fee else 0
    case DirectCredit(credited, amount) => if asset == credited then amount else 0
    case _ => 0
  }

  function Spent(requests: seq<TransferRequest>, asset: Asset): nat {
    if requests == [] then 0
    else
      (if requests[0].token == asset && !ToSelf(requests[0]) then requests[0].amount else 0)
        + Spent(requests[1..], asset)
  }

  // ---------- events ----------

  /** What one step logs: a refused instruction's events are discarded with its writes. */
  function Emitted(d: Deployment, s: State, a: Action): seq<DepositEvent> {
    if ErrorOf(d, s, a) == None then EventOf(a) else []
  }

  function Events(d: Deployment, s: State, actions: seq<Action>): seq<DepositEvent>
    requires Sound(s)
    decreases |actions|
  {
    if actions == [] then []
    else
      StepSound(d, s, actions[0]);
      Emitted(d, s, actions[0]) + Events(d, Step(d, s, actions[0]), actions[1..])
  }

  function Logged(events: seq<DepositEvent>, asset: Asset): int {
    if events == [] then 0
    else (if events[0].token == asset then events[0].amount else 0) + Logged(events[1..], asset)
  }

  /** What came in without a deposit. */
  function Direct(actions: seq<Action>, asset: Asset): nat {
    if actions == [] then 0
    else
      (if actions[0].DirectCredit? then CreditOf(actions[0], asset) else 0) + Direct(actions[1..], asset)
  }

  /** The events of a run account for every credit to the vault but those from outside. */
  lemma {:induction false} EventsAccountForCredits(d: Deployment, s: State, actions: seq<Action>, asset: Asset)
    requires Sound(s)
    ensures Credited(d, s, actions, asset) == Logged(Events(d, s, actions), asset) + Direct(actions, asset)
    decreases |actions|
  {
    hide Sound, Effect, LoadAccount, InitializeError, OwnerError, MigrateError, ExecuteError;
    if actions != [] {
      StepSound(d, s, actions[0]);
      var later := Events(d, Step(d, s, actions[0]), actions[1..]);
      EventsAccountForCredits(d, Step(d, s, actions[0]), actions[1..], asset);
      var now := Emitted(d, s, actions[0]);
      if now == [] {
        assert now + later == later;
      } else {
        assert (now + later)[1..] == later;
      }
    }
  }

  // ---------- each request at most once ----------

  function Hashes(d: Deployment, requests: seq<TransferRequest>): set<Key> {
    set r | r in requests :: RequestHash(d, r)
  }

  lemma {:induction false} UsedAreStartPlusPaid(d: Deployment, s: State, actions: seq<Action>)
    requires Sound(s)
    ensures Run(d, s, actions).used.Keys == s.used.Keys + Hashes(d, Paid(d, s, actions))
    ensures forall r | r in Paid(d, s, actions) :: RequestHash(d, r) !in s.used
    decreases |actions|
  {
    hide ErrorOf, RequestHash, Sound;
    if actions != [] {
      StepSound(d, s, actions[0]);
      var next := Step(d, s, actions[0]);
      UsedAreStartPlusPaid(d, next, actions[1..]);
      UsedStep(d, s, actions[0]);
    }
  }

  lemma UsedStep(d: Deployment, s: State, a: Action)
    requires Sound(s)
    ensures Step(d, s, a).used.Keys == s.used.Keys
      + (if a.Execute? && ErrorOf(d, s, a) == None then {RequestHash(d, a.call.request)} else {})
    ensures a.Execute? && ErrorOf(d, s, a) == None ==> RequestHash(d, a.call.request) !in s.used
  {
    hide LoadAccount, RequestError, PayoutError, StoreAccount, AccountBytes;
  }

  /** In every run, no two payouts carry the same request hash. */
  lemma {:induction false} PaidAtMostOnce(d: Deployment, s: State, actions: seq<Action>, i: nat, j: nat)
    requires Sound(s) && i < j < |Paid(d, s, actions)|
    ensures RequestHash(d, Paid(d, s, actions)[i]) != RequestHash(d, Paid(d, s, actions)[j])
    decreases |actions|
  {
    hide ErrorOf, RequestHash, Sound;
    StepSound(d, s, actions[0]);
    var next := Step(d, s, actions[0]);
    var later := Paid(d, next, actions[1..]);
    UsedStep(d, s, actions[0]);
    if Paid(d, s, actions) == later {
      PaidAtMostOnce(d, next, actions[1..], i, j);
    } else if i > 0 {
      PaidAtMostOnce(d, next, actions[1..], i - 1, j - 1);
    } else {
      UsedAreStartPlusPaid(d, next, actions[1..]);
      assert later[j - 1] in later;
    }
  }

  // ---------- conservation ----------

  lemma {:induction false} Conservation(d: Deployment, s: State, actions: seq<Action>, asset: Asset)
    requires Sound(s)
    ensures Balance(Run(d, s, actions).vault, asset) + Spent(Paid(d, s, actions), asset)
      == Balance(s.vault, asset) + Credited(d, s, actions, asset)
    decreases |actions|
  {
    hide ErrorOf, Sound, Balance;
    if actions != [] {
      StepSound(d, s, actions[0]);
      Conservation(d, Step(d, s, actions[0]), actions[1..], asset);
      ConservationStep(d, s, actions[0], asset);
      var later := Paid(d, Step(d, s, actions[0]), actions[1..]);
      if actions[0].Execute? {
        assert ([actions[0].call.request] + later)[1..] == later;
      }
      assert [] + later == later;
    }
  }

  lemma ConservationStep(d: Deployment, s: State, a: Action, asset: Asset)
    requires Sound(s)
    ensures var done := ErrorOf(d, s, a) == None;
      Balance(Step(d, s, a).vault, asset)
        + (if a.Execute? && done then Spent([a.call.request], asset) else 0)
      == Balance(s.vault, asset) + (if done then CreditOf(a, asset) else 0)
  {
    hide LoadAccount, RequestError, StoreAccount, AccountBytes;
  }

  /** Every amount a run has paid of one asset, whoever received it. */
  function Ordered(requests: seq<TransferRequest>, asset: Asset): nat {
    if requests == [] then 0
    else (if requests[0].token == asset then requests[0].amount else 0) + Ordered(requests[1..], asset)
  }

  lemma {:induction false} SpentIsOrdered(requests: seq<TransferRequest>, asset: Asset)
    ensures Spent(requests, asset) <= Ordered(requests, asset)
    ensures Spent(requests, asset) == Ordered(requests, asset)
      <==> forall r | r in requests && r.token == asset && ToSelf(r) :: r.amount == 0
  {
    if requests != [] {
      SpentIsOrdered(requests[1..], asset);
      assert requests == [requests[0]] + requests[1..];
    }
  }

  /**
    Start plus credits minus all paid amounts is the balance exactly when nothing was paid from the
    vault to the vault: such a request is used up while the money stays.
   */
  lemma PlainConservationIff(d: Deployment, s: State, actions: seq<Action>, asset: Asset)
    requires Sound(s)
    ensures Balance(Run(d, s, actions).vault, asset) + Ordered(Paid(d, s, actions), asset)
        == Balance(s.vault, asset) + Credited(d, s, actions, asset)
      <==> forall r | r in Paid(d, s, actions) && r.token == asset && ToSelf(r) :: r.amount == 0
  {
    Conservation(d, s, actions, asset);
    SpentIsOrdered(Paid(d, s, actions), asset);
  }

  // ---------- a payout to the vault itself ----------

  function Filled(b: nat): Key { seq(32, _ => b % 256) }

  function OwnConfig(): Config { Config(Filled(1), Filled(2), 255, Some(Filled(3))) }

  function OwnDeployment(): Deployment {
    Deployment(_ => Filled(4), (_, _, _) => true, Filled(5), Filled(1), _ => Filled(6), 255, 0)
  }

  function OwnState(): State { State(AccountBytes(OwnConfig()), map[None := 5], map[]) }

  /** Signed by the allocator, with the vault for a recipient. */
  function OwnPayout(): ExecuteCall {
    var request := TransferRequest(Filled(3), Filled(6), None, 1, 0, 1000, Filled(6));
    var signed := StandardData(Filled(2), seq(64, _ => 0), Filled(4));
    ExecuteCall(
      request, 0, Filled(6), Filled(6), 1, Instruction(true, 0, signed),
      None, OtherProgram, OtherProgram, false, false, true)
  }

  lemma OwnPayoutAccepted()
    ensures Sound(OwnState())
    ensures ErrorOf(OwnDeployment(), OwnState(), Execute(OwnPayout())) == None
    ensures PrecompileAccepted(OwnPayout().previous, OwnDeployment().verifies)
  {
    hide Validate, LoadAccount, AccountBytes, HeaderOk;
    FreshLoads(OwnConfig());
    StandardDataAccepted(Filled(2), seq(64, _ => 0), Filled(4));
  }

  /** A run that pays what stays: the plain balance equation fails for it. */
  lemma SelfPaymentHappens()
    ensures exists d: Deployment, s: State, actions: seq<Action> ::
      && Sound(s) && |actions| == 1 && actions[0].Execute?
      && ErrorOf(d, s, actions[0]) == None
      && PrecompileAccepted(actions[0].call.previous, d.verifies)
      && Balance(Run(d, s, actions).vault, None) + Ordered(Paid(d, s, actions), None)
           != Balance(s.vault, None) + Credited(d, s, actions, None)
  {
    hide ErrorOf, Run, Ordered, Credited, Balance, PrecompileAccepted;
    var d, s, a := OwnDeployment(), OwnState(), Execute(OwnPayout());
    OwnPayoutAccepted();
    PlainConservationIff(d, s, [a], None);
    PaidAlone(d, s, a);
    var r := a.call.request;
    assert r in Paid(d, s, [a]) && r.token == None && ToSelf(r) && r.amount != 0;
    assert [a][0] == a;
  }

  lemma PaidAlone(d: Deployment, s: State, a: Action)
    requires Sound(s) && a.Execute? && ErrorOf(d, s, a) == None
    ensures a.call.request in Paid(d, s, [a])
  {
    hide ErrorOf;
    StepSound(d, s, a);
    assert [a][1..] == [];
  }

  // ---------- the rent floor ----------

  /** A vault that holds its rent keeps it in every run. */
  lemma {:induction false} RentFloorKept(d: Deployment, s: State, actions: seq<Action>)
    requires Sound(s) && Balance(s.vault, None) >= d.rentFloor
    ensures Balance(Run(d, s, actions).vault, None) >= d.rentFloor
    decreases |actions|
  {
    hide ErrorOf, Sound;
    if actions != [] {
      StepSound(d, s, actions[0]);
      RentFloorStep(d, s, actions[0]);
      RentFloorKept(d, Step(d, s, actions[0]), actions[1..]);
    }
  }

  lemma RentFloorStep(d: Deployment, s: State, a: Action)
    requires Sound(s) && Balance(s.vault, None) >= d.rentFloor
    ensures Balance(Step(d, s, a).vault, None) >= d.rentFloor
  {
    hide LoadAccount, RequestError, StoreAccount, AccountBytes;
  }

  // ---------- every payout was authorised when it happened ----------

  /** What the depository demands of a request at the moment it pays it. */
  ghost predicate Authorised(d: Deployment, s: State, c: ExecuteCall) {
    && LoadAccount(s.account).Some?
    && var config := LoadAccount(s.account).value;
    && (config.domain.Some? ==> c.request.domain == config.domain.value)
    && c.request.vaultAddress == d.vaultAddress(config.vaultBump)
    && c.now < c.request.expiration
    && c.recipient == c.request.recipient
    && RequestHash(d, c.request) !in s.used
    && SignedBy(config.allocator, RequestHash(d, c.request), d.verifies)
  }

  lemma PaidIsAuthorised(d: Deployment, s: State, c: ExecuteCall)
    requires ExecuteError(d, s, c) == None && PrecompileAccepted(c.previous, d.verifies)
    ensures Authorised(d, s, c)
    ensures c.request.amount <= Balance(s.vault, c.request.token)
  {
    hide LoadAccount, Validate, PrecompileAccepted, SignedBy;
    var config := LoadAccount(s.account).value;
    AcceptedMeansSigned(c.previous, config.allocator, RequestHash(d, c.request), d.verifies);
  }

  /** In every run, each payout met the configuration in force at that very step. */
  lemma EveryPayoutAuthorised(d: Deployment, s: State, actions: seq<Action>, i: nat)
    requires Sound(s) && i < |actions| && actions[i].Execute?
    requires PrecompileAccepted(actions[i].call.previous, d.verifies)
    requires ErrorOf(d, Run(d, s, actions[..i]), actions[i]) == None
    ensures Authorised(d, Run(d, s, actions[..i]), actions[i].call)
    ensures RequestHash(d, actions[i].call.request) in Run(d, s, actions).used
  {
    PaidIsAuthorised(d, Run(d, s, actions[..i]), actions[i].call);
    RunSplit(d, s, actions, i);
    RunSplit(d, Run(d, s, actions[..i]), actions[i..], 1);
    var before := Run(d, s, actions[..i]);
    assert actions[i..][..1] == [actions[i]] && [actions[i]][1..] == [];
    StepSound(d, before, actions[i]);
    assert Run(d, before, [actions[i]]) == Step(d, before, actions[i]);
    UsedAreStartPlusPaid(d, Step(d, before, actions[i]), actions[i..][1..]);
  }

  lemma {:induction false} RunSplit(d: Deployment, s: State, actions: seq<Action>, i: nat)
    requires Sound(s) && i <= |actions|
    ensures Run(d, s, actions) == Run(d, Run(d, s, actions[..i]), actions[i..])
    decreases i
  {
    hide Sound, Step;
    if i == 0 {
      assert actions[..0] == [] && actions[0..] == actions;
    } else {
      StepSound(d, s, actions[0]);
      RunSplit(d, Step(d, s, actions[0]), actions[1..], i - 1);
      assert actions[..i][0] == actions[0] && actions[..i][1..] == actions[1..][..i - 1];
      assert actions[1..][i - 1..] == actions[i..];
    }
  }

  // ---------- used accounts stand for requests ----------

  /** Unless hashes collide, a request is refused as used exactly when this run has paid it. */
  lemma UsedMeansPaid(d: Deployment, s: State, actions: seq<Action>, r: TransferRequest)
    requires Sound(s) && s.used == map[]
    requires forall q | q in Paid(d, s, actions) ::
      RequestHash(d, q) == RequestHash(d, r) ==> RequestBytes(q) == RequestBytes(r)
    ensures RequestHash(d, r) in Run(d, s, actions).used <==> r in Paid(d, s, actions)
  {
    UsedAreStartPlusPaid(d, s, actions);
    forall q | q in Paid(d, s, actions) && RequestHash(d, q) == RequestHash(d, r)
      ensures q == r
    {
      RequestInjective(q, r);
    }
  }

  // ---------- configuration ----------

  /** Only the owner of the moment changes the owner or the allocator of a loaded account. */
  lemma OnlyOwnerConfigures(d: Deployment, s: State, a: Action)
    requires Sound(s) && LoadAccount(s.account).Some?
    ensures LoadAccount(Step(d, s, a).account).Some?
    ensures var c, e := LoadAccount(s.account).value, LoadAccount(Step(d, s, a).account).value;
      && e.vaultBump == c.vaultBump && e.domain == c.domain
      && (e != c ==> (a.SetOwner? || a.SetAllocator?) && a.signer == c.owner)
      && (e.owner != c.owner ==> a.SetOwner? && e.owner == a.newKey)
      && (e.allocator != c.allocator ==> a.SetAllocator? && e.allocator == a.newKey)
  {
    hide LoadAccount, StoreAccount, AccountBytes, ExecuteError, TokenError, NativeError;
    LoadedIsCurrent(s);
    match a
    case SetAllocator(_, key) => StoredLoads(s, LoadAccount(s.account).value.(allocator := key));
    case SetOwner(_, key) => StoredLoads(s, LoadAccount(s.account).value.(owner := key));
    case _ =>
  }

  /** Once loadable, an account stays loadable with the same vault and the same domain. */
  lemma {:induction false} DomainAndVaultFixed(d: Deployment, s: State, actions: seq<Action>)
    requires Sound(s) && LoadAccount(s.account).Some?
    ensures var t := Run(d, s, actions);
      && LoadAccount(t.account).Some?
      && LoadAccount(t.account).value.vaultBump == LoadAccount(s.account).value.vaultBump
      && LoadAccount(t.account).value.domain == LoadAccount(s.account).value.domain
    decreases |actions|
  {
    hide LoadAccount, Sound, Step;
    if actions != [] {
      StepSound(d, s, actions[0]);
      OnlyOwnerConfigures(d, s, actions[0]);
      DomainAndVaultFixed(d, Step(d, s, actions[0]), actions[1..]);
    }
  }

  /** From a missing or a legacy account, every account a run can load has its domain set. */
  lemma {:induction false} DomainAlwaysSet(d: Deployment, s: State, actions: seq<Action>)
    requires Sound(s) && |s.account| != CURRENT_SIZE
    ensures var t := Run(d, s, actions);
      LoadAccount(t.account).Some? ==> LoadAccount(t.account).value.domain.Some?
    decreases |actions|
  {
    hide LoadAccount, Sound, Step;
    if actions == [] {
      NotCurrent(s);
    } else {
      StepSound(d, s, actions[0]);
      var next := Step(d, s, actions[0]);
      BecomesCurrent(d, s, actions[0]);
      if |next.account| != CURRENT_SIZE {
        DomainAlwaysSet(d, next, actions[1..]);
      } else {
        DomainAndVaultFixed(d, next, actions[1..]);
      }
    }
  }

  lemma NotCurrent(s: State)
    requires Sound(s) && |s.account| != CURRENT_SIZE
    ensures LoadAccount(s.account) == None
  {
  }

  lemma BecomesCurrent(d: Deployment, s: State, a: Action)
    requires Sound(s) && |s.account| != CURRENT_SIZE
    ensures var t := Step(d, s, a);
      |t.account| == CURRENT_SIZE ==>
        LoadAccount(t.account).Some? && LoadAccount(t.account).value.domain.Some?
  {
    hide LoadAccount, AccountBytes, LegacyBytes, ExecuteError, TokenError, NativeError;
    NotCurrent(s);
    if ErrorOf(d, s, a) == None {
      match a
      case Initialize(signer, allocator, chainId) =>
        FreshLoads(Config(signer, allocator, d.vaultBump, Some(DomainOf(d, chainId))));
      case Migrate(_, chainId, _, _) =>
        FreshLoads(LegacyConfig(s.account, DomainOf(d, chainId)));
      case _ =>
    }
  }

  // ---------- migration ----------

  /** Migration keeps the legacy bytes and what they mean, and appends the domain. */
  lemma MigrationPreserves(d: Deployment, s: State, a: Action)
    requires Sound(s) && a.Migrate? && ErrorOf(d, s, a) == None
    ensures var old', new' := s.account, Step(d, s, a).account;
      && |old'| == LEGACY_SIZE && |new'| == CURRENT_SIZE
      && new'[..LEGACY_SIZE] == old'
      && new'[LEGACY_SIZE..] == [1] + DomainOf(d, a.chainId)
      && LoadAccount(new') == Some(LegacyConfig(old', DomainOf(d, a.chainId)))
      && a.signer == LegacyConfig(old', DomainOf(d, a.chainId)).owner
  {
    var c := LegacyConfig(s.account, DomainOf(d, a.chainId));
    FreshLoads(c);
    var data := s.account;
    assert data == data[..8] + data[8..40] + data[40..72] + [data[72]];
    assert LegacyBytes(c) == data;
    assert AccountBytes(c)[..LEGACY_SIZE] == data;
    assert AccountBytes(c)[LEGACY_SIZE..] == [1] + DomainOf(d, a.chainId);
  }

  /** In any later state of any run a second migration is refused. */
  lemma MigratedOnce(d: Deployment, s: State, a: Action, actions: seq<Action>, again: Action)
    requires Sound(s) && a.Migrate? && ErrorOf(d, s, a) == None && again.Migrate?
    ensures Sound(Step(d, s, a))
    ensures ErrorOf(d, Run(d, Step(d, s, a), actions), again) == Some(DomainSeparatorAlreadySet)
  {
    StepSound(d, s, a);
    MigrationPreserves(d, s, a);
    DomainAndVaultFixed(d, Step(d, s, a), actions);
    LoadedIsCurrent(Run(d, Step(d, s, a), actions));
  }
}

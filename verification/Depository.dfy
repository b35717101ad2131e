/**
  The relay depository program: an account of configuration bytes, a vault of balances, and one
  account for every request that has been used.  Each handler is a method over that state; what it
  does is also a function, so that whole runs can be reasoned about.
 */
module Depository {
  import opened ByteCodec
  import opened Ed25519Check
  import opened RelayBytes
  import opened Wrappers

  /** `None` is native currency, otherwise a token mint. */
  type Asset = Option<Key>

  /** What the chain fixes for one deployment. */
  datatype Deployment = Deployment(
    hash: Bytes -> Key,
    verifies: (Bytes, Bytes, Bytes) -> bool,
    programId: Key,
    authorized: Key,
    vaultAddress: Byte -> Key,
    vaultBump: Byte,
    rentFloor: nat)

  datatype State = State(account: Bytes, vault: map<Asset, nat>, used: map<Key, bool>)

  datatype TokenProgram = Token | Token2022 | OtherProgram

  /** The accounts and context an execution is called with. */
  datatype ExecuteCall = ExecuteCall(
    request: TransferRequest,
    now: int,
    vault: Key,
    recipient: Key,
    index: nat,
    previous: Instruction,
    mint: Option<Key>,
    mintProgram: TokenProgram,
    tokenProgram: TokenProgram,
    vaultTokenAccount: bool,
    recipientTokenAccount: bool,
    cpiAccepted: bool)

  datatype TokenDeposit = TokenDeposit(
    depositor: Key,
    id: Key,
    mint: Key,
    mintProgram: TokenProgram,
    tokenProgram: TokenProgram,
    vault: Key,
    expectedVaultAccount: bool,
    amount: U64,
    fee: nat,
    cpiAccepted: bool)

  /** What a deposit logs; `None` is native currency. */
  datatype DepositEvent = DepositEvent(depositor: Key, token: Option<Key>, amount: int, id: Key)

  datatype Action =
    | Initialize(signer: Key, allocator: Key, chainId: Bytes)
    | SetAllocator(signer: Key, newKey: Key)
    | SetOwner(signer: Key, newKey: Key)
    | Migrate(signer: Key, chainId: Bytes, index: nat, rentPaid: bool)
    | DepositNative(vault: Key, amount: U64, depositor: Key, id: Key, cpiAccepted: bool)
    | DepositToken(deposit: TokenDeposit)
    | DirectCredit(asset: Asset, amount: U64)
    | Execute(call: ExecuteCall)

  datatype Error =
    | AccountInUse
    | AccountNotLoaded
    | ConstraintSeeds
    | Unauthorized
    | DomainSeparatorAlreadySet
    | InvalidAccountSize
    | InvalidAccountDiscriminator
    | ReentrancyDetected
    | InvalidTokenProgram
    | InvalidMint
    | InvalidVaultTokenAccount
    | SignatureExpired
    | InvalidVaultAddress
    | Signature(cause: SignatureError)
    | InvalidDomainSeparator
    | InvalidRecipient
    | InsufficientVaultBalance
    | TransferFailed

  // ---------- pieces of state ----------

  function Balance(vault: map<Asset, nat>, asset: Asset): nat {
    if asset in vault then vault[asset] else 0
  }

  function Credit(vault: map<Asset, nat>, asset: Asset, amount: nat): map<Asset, nat> {
    vault[asset := Balance(vault, asset) + amount]
  }

  function RequestHash(d: Deployment, r: TransferRequest): Key { d.hash(RequestBytes(r)) }

  function DomainOf(d: Deployment, chainId: Bytes): Key {
    d.hash(DomainPreimage(chainId, d.programId))
  }

  /** A transfer from the vault to itself moves nothing. */
  predicate ToSelf(r: TransferRequest) { r.recipient == r.vaultAddress }

  function PaidOut(vault: map<Asset, nat>, r: TransferRequest): map<Asset, nat>
    requires r.amount <= Balance(vault, r.token)
  {
    if ToSelf(r) then vault else vault[r.token := Balance(vault, r.token) - r.amount]
  }

  // ---------- when each handler refuses, and with what ----------

  function InitializeError(d: Deployment, s: State, signer: Key): Option<Error> {
    if s.account != [] then Some(AccountInUse)
    else if signer != d.authorized then Some(Unauthorized)
    else None
  }

  /** `set_allocator` and `set_owner` share their checks. */
  function OwnerError(s: State, signer: Key): Option<Error> {
    match LoadAccount(s.account)
    case None => Some(AccountNotLoaded)
    case Some(config) => if signer != config.owner then Some(Unauthorized) else None
  }

  function MigrateError(s: State, signer: Key, index: nat, rentPaid: bool): Option<Error> {
    if |s.account| > LEGACY_SIZE then Some(DomainSeparatorAlreadySet)
    else if |s.account| != LEGACY_SIZE then Some(InvalidAccountSize)
    else if s.account[..8] != DISCRIMINATOR then Some(InvalidAccountDiscriminator)
    else if signer != s.account[8..40] then Some(Unauthorized)
    else if index != 0 then Some(ReentrancyDetected)
    else if !rentPaid then Some(TransferFailed)
    else None
  }

  function NativeError(d: Deployment, s: State, vault: Key, cpiAccepted: bool): Option<Error> {
    match LoadAccount(s.account)
    case None => Some(AccountNotLoaded)
    case Some(config) =>
      if vault != d.vaultAddress(config.vaultBump) then Some(ConstraintSeeds)
      else if !cpiAccepted then Some(TransferFailed)
      else None
  }

  function TokenError(d: Deployment, s: State, t: TokenDeposit): Option<Error> {
    match LoadAccount(s.account)
    case None => Some(AccountNotLoaded)
    case Some(config) =>
      if t.vault != d.vaultAddress(config.vaultBump) then Some(ConstraintSeeds)
      else if t.tokenProgram == OtherProgram then Some(InvalidTokenProgram)
      else if t.mintProgram != t.tokenProgram then Some(InvalidMint)
      else if !t.expectedVaultAccount then Some(InvalidVaultTokenAccount)
      else if !t.cpiAccepted || t.fee > t.amount then Some(TransferFailed)
      else None
  }

  /** Checks on the request itself, before any money is looked at. */
  function RequestError(d: Deployment, config: Config, c: ExecuteCall): Option<Error> {
    var r := c.request;
    if c.now >= r.expiration then Some(SignatureExpired)
    else if c.vault != r.vaultAddress then Some(InvalidVaultAddress)
    else if c.index == 0 then Some(Signature(MalformedEd25519Data))
    else match Validate(c.previous, config.allocator, RequestHash(d, r))
      case Some(cause) => Some(Signature(cause))
      case None =>
        if config.domain.Some? && r.domain != config.domain.value then Some(InvalidDomainSeparator)
        else None
  }

  function PayoutError(d: Deployment, vault: map<Asset, nat>, c: ExecuteCall): Option<Error> {
    var r := c.request;
    var balance := Balance(vault, r.token);
    match r.token
    case None =>
      if c.recipient != r.recipient then Some(InvalidRecipient)
      else if r.amount > (if balance < d.rentFloor then 0 else balance - d.rentFloor)
      then Some(InsufficientVaultBalance)
      else if !c.cpiAccepted then Some(TransferFailed)
      else None
    case Some(mint) =>
      if c.mint != Some(mint) then Some(InvalidMint)
      else if !c.vaultTokenAccount || !c.recipientTokenAccount then Some(InvalidMint)
      else if c.recipient != r.recipient then Some(InvalidRecipient)
      else if c.tokenProgram == OtherProgram then Some(InvalidTokenProgram)
      else if c.mintProgram != c.tokenProgram then Some(InvalidMint)
      else if r.amount > balance || !c.cpiAccepted then Some(TransferFailed)
      else None
  }

  function ExecuteError(d: Deployment, s: State, c: ExecuteCall): Option<Error> {
    match LoadAccount(s.account)
    case None => Some(AccountNotLoaded)
    case Some(config) =>
      if c.vault != d.vaultAddress(config.vaultBump) then Some(ConstraintSeeds)
      else if RequestHash(d, c.request) in s.used then Some(AccountInUse)
      else match RequestError(d, config, c)
        case Some(e) => Some(e)
        case None => PayoutError(d, s.vault, c)
  }

  function ErrorOf(d: Deployment, s: State, a: Action): Option<Error> {
    match a
    case Initialize(signer, _, _) => InitializeError(d, s, signer)
    case SetAllocator(signer, _) => OwnerError(s, signer)
    case SetOwner(signer, _) => OwnerError(s, signer)
    case Migrate(signer, _, index, rentPaid) => MigrateError(s, signer, index, rentPaid)
    case DepositNative(vault, _, _, _, ok) => NativeError(d, s, vault, ok)
    case DepositToken(t) => TokenError(d, s, t)
    case DirectCredit(_, _) => None
    case Execute(c) => ExecuteError(d, s, c)
  }

  // ---------- what each handler does otherwise ----------

  function LegacyConfig(data: Bytes, domain: Key): Config
    requires |data| == LEGACY_SIZE
  {
    Config(data[8..40], data[40..72], data[72], Some(domain))
  }

  function Effect(d: Deployment, s: State, a: Action): State
    requires ErrorOf(d, s, a) == None && Sound(s)
  {
    match a
    case Initialize(signer, allocator, chainId) =>
      s.(account := AccountBytes(Config(signer, allocator, d.vaultBump, Some(DomainOf(d, chainId)))))
    case SetAllocator(_, key) =>
      s.(account := StoreAccount(s.account, LoadAccount(s.account).value.(allocator := key)))
    case SetOwner(_, key) =>
      s.(account := StoreAccount(s.account, LoadAccount(s.account).value.(owner := key)))
    case Migrate(_, chainId, _, _) =>
      s.(account := AccountBytes(LegacyConfig(s.account, DomainOf(d, chainId))))
    case DepositNative(_, amount, _, _, _) => s.(vault := Credit(s.vault, None, amount))
    case DepositToken(t) => s.(vault := Credit(s.vault, Some(t.mint), t.amount - t.fee))
    case DirectCredit(asset, amount) => s.(vault := Credit(s.vault, asset, amount))
    case Execute(c) =>
      s.(used := s.used[RequestHash(d, c.request) := true], vault := PaidOut(s.vault, c.request))
  }

  /** The event that a handler logs as its last act. */
  function EventOf(a: Action): seq<DepositEvent> {
    match a
    case DepositNative(_, amount, depositor, id, _) => [DepositEvent(depositor, None, amount, id)]
    case DepositToken(t) => [DepositEvent(t.depositor, Some(t.mint), t.amount - t.fee, t.id)]
    case _ => []
  }

  /**
    What the account can hold: nothing yet, a legacy account, or an account of the current size that
    loads.  A used-request account is never left unmarked.
   */
  ghost predicate Sound(s: State) {
    && (|s.account| == 0 || |s.account| == LEGACY_SIZE
        || (|s.account| == CURRENT_SIZE && LoadAccount(s.account).Some?))
    && forall h | h in s.used :: s.used[h]
  }
}

/**
  How the depository program is entered: the first eight bytes of an instruction's data choose the
  handler, its arguments follow in Borsh, and its accounts are taken in the order of the handler's
  account struct.
 */
module DepositoryDispatch {
  import opened ByteCodec
  import opened Depository
  import opened RelayBytes
  import opened Wrappers

  const DEPOSIT_NATIVE: Bytes := [13, 158, 13, 223, 95, 213, 28, 6]
  const DEPOSIT_TOKEN: Bytes := [11, 156, 96, 218, 39, 163, 180, 19]

  // ---------- arguments ----------

  /** A Borsh reader takes what it needs from the front and leaves the rest. */
  function TakeU64(data: Bytes): Option<(U64, Bytes)> {
    if |data| < 8 then None else Some((ReadU64(data[..8]), data[8..]))
  }

  function TakeKey(data: Bytes): Option<(Key, Bytes)> {
    if |data| < 32 then None else Some((data[..32], data[32..]))
  }

  /** The arguments of both deposit handlers. */
  datatype DepositArgs = DepositArgs(amount: U64, id: Key)

  function TakeArgs(data: Bytes): Option<DepositArgs> {
    match TakeU64(data)
    case None => None
    case Some((amount, rest)) =>
      match TakeKey(rest)
      case None => None
      case Some((id, _)) => Some(DepositArgs(amount, id))
  }

  // ---------- account structs ----------

  datatype NativeAccounts = NativeAccounts(
    relayDepository: Key, sender: Key, depositor: Key, vault: Key, systemProgram: Key)

  datatype TokenAccounts = TokenAccounts(
    relayDepository: Key, sender: Key, depositor: Key, vault: Key, mint: Key, senderTokenAccount: Key,
    vaultTokenAccount: Key, tokenProgram: Key, associatedTokenProgram: Key, systemProgram: Key)

  /** Too few accounts are an error, more than the struct names are left over. */
  function TakeNative(keys: seq<Key>): Option<NativeAccounts> {
    if |keys| < 5 then None else Some(NativeAccounts(keys[0], keys[1], keys[2], keys[3], keys[4]))
  }

  function TakeToken(keys: seq<Key>): Option<TokenAccounts> {
    if |keys| < 10 then None
    else
      Some(TokenAccounts(
             keys[0], keys[1], keys[2], keys[3], keys[4], keys[5], keys[6], keys[7], keys[8], keys[9]))
  }

  // ---------- from an instruction to a handler ----------

  /**
    What the runtime knows besides the instruction: which account is the depository's, whether the
    other account constraints and the inner transfer succeed, which token program a key is and
    which one owns a mint, derived token accounts, and the fee a mint takes.  `other` stands for the
    handlers that log no deposit.
   */
  datatype Env = Env(
    relayDepository: Key,
    constrained: (seq<Key>, Bytes) -> bool,
    transferred: (seq<Key>, Bytes) -> bool,
    kindOf: Key -> TokenProgram,
    ownerOf: Key -> TokenProgram,
    tokenAccount: (Key, Key, Key) -> Key,
    mintFee: (Key, int) -> nat,
    other: (seq<Key>, Bytes) -> Option<Action>)

  /** `get_transfer_fee`: only mints of the newer token program can take one. */
  function TransferFee(env: Env, mint: Key, amount: int): nat {
    if env.ownerOf(mint) == Token then 0 else env.mintFee(mint, amount)
  }

  function NativeCall(env: Env, keys: seq<Key>, data: Bytes, args: DepositArgs, a: NativeAccounts): Action {
    DepositNative(a.vault, args.amount, a.depositor, args.id, env.transferred(keys, data))
  }

  function TokenCall(env: Env, keys: seq<Key>, data: Bytes, args: DepositArgs, a: TokenAccounts): Action {
    DepositToken(TokenDeposit(
      a.depositor, args.id, a.mint, env.ownerOf(a.mint), env.kindOf(a.tokenProgram), a.vault,
      a.vaultTokenAccount == env.tokenAccount(a.vault, a.mint, a.tokenProgram),
      args.amount, TransferFee(env, a.mint, args.amount), env.transferred(keys, data)))
  }

  /** The handler call an instruction becomes; `None` is an error before any handler runs. */
  function Dispatch(env: Env, keys: seq<Key>, data: Bytes): Option<Action> {
    if |data| < 8 || !env.constrained(keys, data) then None
    else if data[..8] == DEPOSIT_NATIVE then
      match (TakeArgs(data[8..]), TakeNative(keys))
      case (Some(args), Some(a)) =>
        if a.relayDepository != env.relayDepository then None else Some(NativeCall(env, keys, data, args, a))
      case _ => None
    else if data[..8] == DEPOSIT_TOKEN then
      match (TakeArgs(data[8..]), TakeToken(keys))
      case (Some(args), Some(a)) =>
        if a.relayDepository != env.relayDepository then None else Some(TokenCall(env, keys, data, args, a))
      case _ => None
    else
      match env.other(keys, data)
      case Some(action) => if action.DepositNative? || action.DepositToken? then None else Some(action)
      case None => None
  }
}

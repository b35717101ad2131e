/**
  The handlers as they run: each one checks, writes the accounts in place, and hands over to the
  runtime, which throws the writes of a failing instruction away.
 */
module DepositoryProgram {
  import opened ByteCodec
  import opened Depository
  import opened DepositoryRuns
  import opened RelayBytes
  import opened Wrappers

  class Program {
    const d: Deployment
    var account: Bytes
    var vault: map<Asset, nat>
    var used: map<Key, bool>
    /** The log of the deposit events. */
    var events: seq<DepositEvent>

    ghost function Now(): State
      reads this
    {
      State(account, vault, used)
    }

    constructor (d: Deployment, vault: map<Asset, nat>)
      ensures this.d == d && Sound(Now())
      ensures Now() == State([], vault, map[]) && events == []
    {
      this.d := d;
      this.account := [];
      this.vault := vault;
      this.used := map[];
      this.events := [];
    }

    method Initialize(signer: Key, allocator: Key, chainId: Bytes) returns (error: Option<Error>)
      requires Sound(Now())
      modifies this`account
      ensures Sound(Now())
      ensures error == ErrorOf(d, old(Now()), Action.Initialize(signer, allocator, chainId))
      ensures Now() == Step(d, old(Now()), Action.Initialize(signer, allocator, chainId))
    {
      StepSound(d, Now(), Action.Initialize(signer, allocator, chainId));
      if account != [] {
        return Some(AccountInUse);
      }
      if signer != d.authorized {
        return Some(Unauthorized);
      }
      account := AccountBytes(Config(signer, allocator, d.vaultBump, Some(DomainOf(d, chainId))));
      return None;
    }

    method SetAllocator(signer: Key, newAllocator: Key) returns (error: Option<Error>)
      requires Sound(Now())
      modifies this`account
      ensures Sound(Now())
      ensures error == ErrorOf(d, old(Now()), Action.SetAllocator(signer, newAllocator))
      ensures Now() == Step(d, old(Now()), Action.SetAllocator(signer, newAllocator))
    {
      StepSound(d, Now(), Action.SetAllocator(signer, newAllocator));
      var loaded := LoadAccount(account);
      if loaded.None? {
        return Some(AccountNotLoaded);
      }
      var relay := loaded.value;
      if signer != relay.owner {
        return Some(Unauthorized);
      }
      relay := relay.(allocator := newAllocator);
      StoredLoads(Now(), relay);
      account := StoreAccount(account, relay);
      return None;
    }

    method SetOwner(signer: Key, newOwner: Key) returns (error: Option<Error>)
      requires Sound(Now())
      modifies this`account
      ensures Sound(Now())
      ensures error == ErrorOf(d, old(Now()), Action.SetOwner(signer, newOwner))
      ensures Now() == Step(d, old(Now()), Action.SetOwner(signer, newOwner))
    {
      StepSound(d, Now(), Action.SetOwner(signer, newOwner));
      var loaded := LoadAccount(account);
      if loaded.None? {
        return Some(AccountNotLoaded);
      }
      var relay := loaded.value;
      if signer != relay.owner {
        return Some(Unauthorized);
      }
      relay := relay.(owner := newOwner);
      StoredLoads(Now(), relay);
      account := StoreAccount(account, relay);
      return None;
    }

    method MigrateDomainSeparator(signer: Key, chainId: Bytes, index: nat, rentPaid: bool)
      returns (error: Option<Error>)
      requires Sound(Now())
      modifies this`account
      ensures Sound(Now())
      ensures error == ErrorOf(d, old(Now()), Migrate(signer, chainId, index, rentPaid))
      ensures Now() == Step(d, old(Now()), Migrate(signer, chainId, index, rentPaid))
    {
      StepSound(d, Now(), Migrate(signer, chainId, index, rentPaid));
      if |account| > LEGACY_SIZE {
        return Some(DomainSeparatorAlreadySet);
      }
      if |account| != LEGACY_SIZE {
        return Some(InvalidAccountSize);
      }
      if account[..8] != DISCRIMINATOR {
        return Some(InvalidAccountDiscriminator);
      }
      var owner, allocator, vaultBump := account[8..40], account[40..72], account[72];
      if signer != owner {
        return Some(Unauthorized);
      }
      if index != 0 {
        return Some(ReentrancyDetected);
      }
      if !rentPaid {
        return Some(TransferFailed);
      }
      account := account + seq(CURRENT_SIZE - LEGACY_SIZE, _ => 0);
      var relay := Config(owner, allocator, vaultBump, Some(DomainOf(d, chainId)));
      account := StoreAccount(account, relay);
      assert account == AccountBytes(relay);
      return None;
    }

    method DepositNative(vaultAccount: Key, amount: U64, depositor: Key, id: Key, cpiAccepted: bool)
      returns (error: Option<Error>)
      requires Sound(Now())
      modifies this`vault, this`events
      ensures Sound(Now())
      ensures error == ErrorOf(d, old(Now()), Action.DepositNative(vaultAccount, amount, depositor, id, cpiAccepted))
      ensures Now() == Step(d, old(Now()), Action.DepositNative(vaultAccount, amount, depositor, id, cpiAccepted))
      ensures events == old(events)
        + Emitted(d, old(Now()), Action.DepositNative(vaultAccount, amount, depositor, id, cpiAccepted))
    {
      StepSound(d, Now(), Action.DepositNative(vaultAccount, amount, depositor, id, cpiAccepted));
      var loaded := LoadAccount(account);
      if loaded.None? {
        return Some(AccountNotLoaded);
      }
      if vaultAccount != d.vaultAddress(loaded.value.vaultBump) {
        return Some(ConstraintSeeds);
      }
      if !cpiAccepted {
        return Some(TransferFailed);
      }
      vault := Credit(vault, None, amount);
      events := events + [DepositEvent(depositor, None, amount, id)];
      return None;
    }

    method DepositToken(t: TokenDeposit) returns (error: Option<Error>)
      requires Sound(Now())
      modifies this`vault, this`events
      ensures Sound(Now())
      ensures error == ErrorOf(d, old(Now()), Action.DepositToken(t))
      ensures Now() == Step(d, old(Now()), Action.DepositToken(t))
      ensures events == old(events) + Emitted(d, old(Now()), Action.DepositToken(t))
    {
      StepSound(d, Now(), Action.DepositToken(t));
      var loaded := LoadAccount(account);
      if loaded.None? {
        return Some(AccountNotLoaded);
      }
      if t.vault != d.vaultAddress(loaded.value.vaultBump) {
        return Some(ConstraintSeeds);
      }
      if t.tokenProgram != Token && t.tokenProgram != Token2022 {
        return Some(InvalidTokenProgram);
      }
      if t.mintProgram != t.tokenProgram {
        return Some(InvalidMint);
      }
      if !t.expectedVaultAccount {
        return Some(InvalidVaultTokenAccount);
      }
      if !t.cpiAccepted || t.fee > t.amount {
        return Some(TransferFailed);
      }
      vault := Credit(vault, Some(t.mint), t.amount - t.fee);
      events := events + [DepositEvent(t.depositor, Some(t.mint), t.amount - t.fee, t.id)];
      return None;
    }

    method ExecuteTransfer(c: ExecuteCall) returns (error: Option<Error>)
      requires Sound(Now())
      modifies this`used, this`vault
      ensures Sound(Now())
      ensures error == ErrorOf(d, old(Now()), Execute(c))
      ensures Now() == Step(d, old(Now()), Execute(c))
    {
      hide LoadAccount, RequestError, PayoutError, InitializeError, OwnerError, MigrateError,
        NativeError, TokenError, RequestHash, PaidOut;
      StepSound(d, Now(), Execute(c));
      var r := c.request;
      var loaded := LoadAccount(account);
      if loaded.None? {
        return Some(AccountNotLoaded);
      }
      var config := loaded.value;
      if c.vault != d.vaultAddress(config.vaultBump) {
        return Some(ConstraintSeeds);
      }
      var before := used;
      var hash := RequestHash(d, r);
      if hash in used {
        return Some(AccountInUse);
      }
      used := used[hash := false];

      error := RequestError(d, config, c);
      if error.Some? {
        used := before;
        return;
      }
      used := used[hash := true];
      error := Pay(c);
      if error.Some? {
        used := before;
      } else {
        assert used == before[hash := true];
      }
    }

    /** The transfer itself, native or token. */
    method Pay(c: ExecuteCall) returns (error: Option<Error>)
      modifies this`vault
      ensures error == PayoutError(d, old(vault), c)
      ensures vault == if error.Some? then old(vault) else PaidOut(old(vault), c.request)
    {
      var r := c.request;
      if r.token.None? {
        if c.recipient != r.recipient {
          return Some(InvalidRecipient);
        }
        var balance := Balance(vault, None);
        var maxTransferable := if balance < d.rentFloor then 0 else balance - d.rentFloor;
        if r.amount > maxTransferable {
          return Some(InsufficientVaultBalance);
        }
      } else {
        if c.mint.None? || c.mint.value != r.token.value {
          return Some(InvalidMint);
        }
        if !c.vaultTokenAccount || !c.recipientTokenAccount {
          return Some(InvalidMint);
        }
        if c.recipient != r.recipient {
          return Some(InvalidRecipient);
        }
        if c.tokenProgram != Token && c.tokenProgram != Token2022 {
          return Some(InvalidTokenProgram);
        }
        if c.mintProgram != c.tokenProgram {
          return Some(InvalidMint);
        }
        if r.amount > Balance(vault, r.token) {
          return Some(TransferFailed);
        }
      }
      if !c.cpiAccepted {
        return Some(TransferFailed);
      }
      vault := PaidOut(vault, r);
      return None;
    }
  }
}

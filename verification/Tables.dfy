/** The record layouts that the public readers share. */
module Tables {
  import opened Renormalise
  import opened Schema

  const MONEY := Is(Money)
  const MAYBE_MONEY := Maybe(MONEY)
  const TEXT := Is(Text)
  const NULL_TEXT := Nullable(TEXT)

  /** A record with exactly these members, the optional ones possibly absent. */
  function Exact(ms: Members, checks: seq<Check>): Kind {
    Record(ms, ms.Keys, AlwaysKeys(ms), checks)
  }

  // ---------- profiles ----------

  datatype Profile = Testnet | Mainnet

  function ProfileName(p: Profile): Js {
    match p case Testnet => Str("testnet") case Mainnet => Str("mainnet")
  }

  function BadgeOf(p: Profile): Js {
    match p case Testnet => Str("TESTNET") case Mainnet => Str("MAINNET")
  }

  function NetworkOf(p: Profile): Js {
    match p
    case Testnet =>
      Obj(map[
        evm := Obj(map[name := Str("sepolia"), chainId := Num(11155111), label' := Str("Sepolia")]),
        solana := Obj(map[
          name := Str("devnet"),
          genesisHash := Str("EtWTRABZaYq6iMfeYKouRu166VU2xqa1wcaWoxPkrZBG"),
          label' := Str("Solana Devnet")])])
    case Mainnet =>
      Obj(map[
        evm := Obj(map[name := Str("robinhood"), chainId := Num(4663), label' := Str("Robinhood Chain")]),
        solana := Obj(map[
          name := Str("mainnet-beta"),
          genesisHash := Str("5eykt4UsFv8P8NJdTREpY1vzqKqZKvdpKuc147dw2N9d"),
          label' := Str("Solana")])])
  }

  function ReadProfile(v: Js): (p: Profile) {
    if v == ProfileName(Testnet) then Testnet else Mainnet
  }

  predicate IsProfile(v: Js) { v == ProfileName(Testnet) || v == ProfileName(Mainnet) }

  // ---------- accounting ----------

  const QUOTED_COSTS := Exact(
    map[
      outboundBridgeMicroUsdg := Req(MAYBE_MONEY),
      inboundBridgeMicroUsdg := Req(MAYBE_MONEY),
      collectorApiMicroUsdg := Req(MAYBE_MONEY),
      evmNetworkMicroUsdg := Req(MAYBE_MONEY),
      solanaNetworkMicroUsdg := Req(MAYBE_MONEY),
      slippageMicroUsdg := Req(MAYBE_MONEY)],
    [])

  const NATIVE_FEE := Nullable(Exact(map[lamports := Req(MONEY), paidBy := Req(TEXT)], []))

  const NETWORK_FEES := Exact(
    map[
      walletLamportsCharged := Req(MAYBE_MONEY),
      purchase := Req(NATIVE_FEE),
      buyback := Req(NATIVE_FEE)],
    [])

  /** A chain-typed amount; the readers differ in how long its ids may be. */
  function AmountKind(text: Leaf): Kind {
    Exact(
      map[
        chainId := Req(Is(text)),
        assetId := Req(Is(text)),
        units := Req(MONEY),
        decimals := Req(Is(Decimals))],
      [])
  }

  const ROUND_KEYS := {
    packSpendMicroUsdg, buybackMicroUsdg, packGainMicroUsdg, packLossMicroUsdg, quotedCosts,
    protectedCostsMicroUsdg, confirmedCostsMicroUsdg, cycleGainMicroUsdg, cycleLossMicroUsdg,
    walletBalanceBeforeMicroUsdg, walletBalanceAfterMicroUsdg, networkFees,
    feeReserveBeforeMicroUsdg, feeReserveTargetMicroUsdg, feeReserveTopUpMicroUsdg,
    feeReserveAfterMicroUsdg, plannedHolderRewardsMicroUsdg, paidHolderRewardsMicroUsdg,
    holderRewardsStatus, distributionStatus
  }

  const TYPED_KEYS := {
    outboundBridgeDebit, inboundBridgeProceeds, collectorPurchaseDebit, collectorBuybackProceeds,
    payoutLiabilityMicroUsdg, payoutDustMicroUsdg, paidHolderRewardsRecipientCount
  }

  /** How each member of a round is read; `pack` and `result` are the figures the versions differ in. */
  function RoundKind(key: Key, pack: Kind, result: Kind, text: Leaf): Kind {
    if key.packSpendMicroUsdg? || key.buybackMicroUsdg? || key.packGainMicroUsdg? || key.packLossMicroUsdg? then
      pack
    else if key.quotedCosts? then QUOTED_COSTS
    else if key.networkFees? then NETWORK_FEES
    else if key.confirmedCostsMicroUsdg? then Maybe(Is(SignedMoney))
    else if key.cycleGainMicroUsdg? || key.cycleLossMicroUsdg? then result
    else if key.holderRewardsStatus? || key.distributionStatus? then TEXT
    else if key.outboundBridgeDebit? || key.inboundBridgeProceeds? || key.collectorPurchaseDebit?
      || key.collectorBuybackProceeds? then Nullable(AmountKind(text))
    else if key.paidHolderRewardsRecipientCount? then Nullable(Is(Count))
    else MAYBE_MONEY
  }

  function RoundMembers(keys: set<Key>, pack: Kind, result: Kind, text: Leaf): Members {
    map key | key in keys :: Req(RoundKind(key, pack, result, text))
  }

  /** The round with pack figures that are never null. */
  function PackRound(result: Kind): Kind {
    Exact(RoundMembers(ROUND_KEYS, MONEY, result, Text),
          [Exclusive(packGainMicroUsdg, packLossMicroUsdg),
           NullExclusive(cycleGainMicroUsdg, cycleLossMicroUsdg)])
  }

  /** The round whose pack figures may be unknown, with typed bridge and collector amounts besides. */
  function TypedRound(text: Leaf): Kind {
    Exact(RoundMembers(ROUND_KEYS + TYPED_KEYS, MAYBE_MONEY, MAYBE_MONEY, text),
          [NullExclusive(packGainMicroUsdg, packLossMicroUsdg),
           NullExclusive(cycleGainMicroUsdg, cycleLossMicroUsdg)])
  }

  // ---------- the parts are their own normal form ----------

  /** Current (nothing rewritten) and with nothing in it that can grow. */
  predicate Steady(k: Kind) { Regular(k) && Plain(k, k) }

  /** A record of steady members, all of them listed, is steady. */
  lemma ExactSteady(ms: Members, checks: seq<Check>)
    requires forall key | key in ms :: Steady(ms[key].kind)
    ensures Steady(Exact(ms, checks))
  {
  }

  lemma LeavesSteady(text: Leaf)
    requires text == Text || text == AnyText
    ensures Steady(MONEY) && Steady(MAYBE_MONEY) && Steady(TEXT) && Steady(NULL_TEXT) && Steady(Is(text))
    ensures Steady(Is(Decimals)) && Steady(Is(Count)) && Steady(Nullable(Is(Count)))
    ensures Steady(Maybe(Is(SignedMoney)))
  {
  }

  lemma NullableSteady(k: Kind)
    requires Steady(k)
    ensures Steady(Nullable(k))
  {
  }

  lemma QuotedCostsSteady()
    ensures Steady(QUOTED_COSTS)
  {
    hide Steady, Exact;
    LeavesSteady(Text);
    ExactSteady(map[
      outboundBridgeMicroUsdg := Req(MAYBE_MONEY),
      inboundBridgeMicroUsdg := Req(MAYBE_MONEY),
      collectorApiMicroUsdg := Req(MAYBE_MONEY),
      evmNetworkMicroUsdg := Req(MAYBE_MONEY),
      solanaNetworkMicroUsdg := Req(MAYBE_MONEY),
      slippageMicroUsdg := Req(MAYBE_MONEY)], []);
  }

  lemma NetworkFeesSteady()
    ensures Steady(NATIVE_FEE) && Steady(NETWORK_FEES)
  {
    hide Steady, Exact;
    LeavesSteady(Text);
    ExactSteady(map[lamports := Req(MONEY), paidBy := Req(TEXT)], []);
    NullableSteady(Exact(map[lamports := Req(MONEY), paidBy := Req(TEXT)], []));
    ExactSteady(map[
      walletLamportsCharged := Req(MAYBE_MONEY),
      purchase := Req(NATIVE_FEE),
      buyback := Req(NATIVE_FEE)], []);
  }

  lemma AmountSteady(text: Leaf)
    requires text == Text || text == AnyText
    ensures Steady(AmountKind(text))
  {
    hide Steady, Exact;
    LeavesSteady(text);
    ExactSteady(
      map[chainId := Req(Is(text)), assetId := Req(Is(text)), units := Req(MONEY), decimals := Req(Is(Decimals))], []);
  }

  lemma RoundSteady(keys: set<Key>, pack: Kind, result: Kind, text: Leaf, checks: seq<Check>)
    requires Steady(pack) && Steady(result) && (text == Text || text == AnyText)
    ensures Steady(Exact(RoundMembers(keys, pack, result, text), checks))
  {
    hide Steady, Exact, QUOTED_COSTS, NETWORK_FEES, MAYBE_MONEY, TEXT, AmountKind;
    LeavesSteady(text);
    QuotedCostsSteady();
    NetworkFeesSteady();
    AmountSteady(text);
    NullableSteady(AmountKind(text));
    ExactSteady(RoundMembers(keys, pack, result, text), checks);
  }

  lemma RoundsSteady(text: Leaf)
    requires text == Text || text == AnyText
    ensures Steady(PackRound(MAYBE_MONEY)) && Steady(TypedRound(text))
  {
    hide Steady, Exact, RoundMembers;
    LeavesSteady(text);
    RoundSteady(ROUND_KEYS, MONEY, MAYBE_MONEY, Text,
                [Exclusive(packGainMicroUsdg, packLossMicroUsdg),
                 NullExclusive(cycleGainMicroUsdg, cycleLossMicroUsdg)]);
    RoundSteady(ROUND_KEYS + TYPED_KEYS, MAYBE_MONEY, MAYBE_MONEY, text,
                [NullExclusive(packGainMicroUsdg, packLossMicroUsdg),
                 NullExclusive(cycleGainMicroUsdg, cycleLossMicroUsdg)]);
  }
}

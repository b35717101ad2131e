/**
  The accounting of a version 3 round.  Old records hold spend, buyback and confirmed costs; the
  gains and losses are derived from them, once in the web reader and once in the operator panel.
 */
module LegacyRound {
  import opened Decimal
  import opened Renormalise
  import opened Schema
  import opened Tables
  import opened Wrappers

  const LEGACY_ROUND_KEYS := {
    packSpendMicroUsdg, buybackMicroUsdg, protectedCostsMicroUsdg, confirmedCostsMicroUsdg,
    feeReserveBeforeMicroUsdg, feeReserveTargetMicroUsdg, feeReserveTopUpMicroUsdg,
    feeReserveAfterMicroUsdg, holderRewardsMicroUsdg, gainMicroUsdg, lossMicroUsdg
  }

  /** The amounts both decoders copy as they are. */
  predicate Copied(key: Key) {
    || key.packSpendMicroUsdg? || key.buybackMicroUsdg? || key.protectedCostsMicroUsdg?
    || key.feeReserveBeforeMicroUsdg? || key.feeReserveTargetMicroUsdg?
    || key.feeReserveTopUpMicroUsdg? || key.feeReserveAfterMicroUsdg?
  }

  predicate IsMoney(v: Js) { v.Str? && MoneyText(v.s) }

  predicate IsSigned(v: Js) { v.Str? && SignedText(v.s) }

  predicate Absent(v: Js) { v == Undefined || v == Null }

  predicate Negative(v: Js) { v.Str? && v.s != "" && v.s[0] == '-' }

  /** The amounts both decoders insist on. */
  predicate Amounts(source: map<Key, Js>) {
    && IsMoney(Get(source, packSpendMicroUsdg)) && IsMoney(Get(source, buybackMicroUsdg))
    && IsMoney(Get(source, protectedCostsMicroUsdg))
    && IsMoney(Get(source, feeReserveBeforeMicroUsdg)) && IsMoney(Get(source, feeReserveTargetMicroUsdg))
    && IsMoney(Get(source, feeReserveTopUpMicroUsdg)) && IsMoney(Get(source, feeReserveAfterMicroUsdg))
    && IsMoney(Get(source, holderRewardsMicroUsdg))
  }

  function Micro(v: Js): int
    requires IsSigned(v)
  {
    if MoneyText(v.s) then Value(v.s) else 0 - Value(v.s[1..])
  }

  function NullIfAbsent(v: Js): Js { if Absent(v) then Null else v }

  function NullAmounts(keys: set<Key>): Js { Obj(map key | key in keys :: Null) }

  const COMPUTED := Str("computed")

  function Settlement(paid: Js): Js {
    Str(if paid == Null then "pending" else "legacy-settlement-recorded")
  }

  /** The figures that are derived. */
  datatype Figures = Figures(packGain: Js, packLoss: Js, cycleGain: Js, cycleLoss: Js)

  /** The members of the derived record. */
  function Figure(source: map<Key, Js>, paid: Js, f: Figures, key: Key): Js {
    if Copied(key) then Get(source, key)
    else if key.packGainMicroUsdg? then f.packGain
    else if key.packLossMicroUsdg? then f.packLoss
    else if key.cycleGainMicroUsdg? then f.cycleGain
    else if key.cycleLossMicroUsdg? then f.cycleLoss
    else if key.quotedCosts? then NullAmounts(QUOTED_COSTS.allowed)
    else if key.networkFees? then NullAmounts(NETWORK_FEES.allowed)
    else if key.confirmedCostsMicroUsdg? then NullIfAbsent(Get(source, confirmedCostsMicroUsdg))
    else if key.plannedHolderRewardsMicroUsdg? then Get(source, holderRewardsMicroUsdg)
    else if key.paidHolderRewardsMicroUsdg? then NullIfAbsent(paid)
    else if key.holderRewardsStatus? then COMPUTED
    else if key.distributionStatus? then Settlement(paid)
    else Null
  }

  function RoundOf(source: map<Key, Js>, paid: Js, f: Figures): Js {
    Obj(map key | key in ROUND_KEYS :: Figure(source, paid, f, key))
  }

  // ---------- the web reader ----------

  /** The digit-by-digit subtraction of two money strings, as `Decimal.SubtractAtZero` computes it. */
  function TextDifference(a: Js, b: Js): Js
    requires IsMoney(a) && IsMoney(b)
  {
    Str(Print(Monus(Value(a.s), Value(b.s))))
  }

  function BigDifference(a: int, b: int): Js { Str(Print(Monus(a, b))) }

  function WebRound(source: map<Key, Js>, paid: Js): Option<Js> {
    if source.Keys != LEGACY_ROUND_KEYS then None
    else if !Amounts(source) then None
    else if !Absent(paid) && !IsMoney(paid) then None
    else
      var spend, buyback := Get(source, packSpendMicroUsdg), Get(source, buybackMicroUsdg);
      var confirmed := Get(source, confirmedCostsMicroUsdg);
      if Absent(confirmed) then
        Some(RoundOf(source, paid,
                     Figures(TextDifference(buyback, spend), TextDifference(spend, buyback), Null, Null)))
      else if !IsSigned(confirmed) then None
      else
        var cost := Value(spend.s) + Micro(confirmed);
        Some(RoundOf(source, paid,
                     Figures(TextDifference(buyback, spend), TextDifference(spend, buyback),
                             BigDifference(Value(buyback.s), cost), BigDifference(cost, Value(buyback.s)))))
  }

  // ---------- the operator panel ----------

  function AtZero(left: int, right: int): Js { Str(Print(if left > right then left - right else 0)) }

  function PanelDifference(spend: int, buyback: int, gain: bool): Js {
    var left, right := if gain then buyback else spend, if gain then spend else buyback;
    AtZero(left, right)
  }

  const NO_COSTS := Obj(map[
    outboundBridgeMicroUsdg := Null, inboundBridgeMicroUsdg := Null, collectorApiMicroUsdg := Null,
    evmNetworkMicroUsdg := Null, solanaNetworkMicroUsdg := Null, slippageMicroUsdg := Null])

  const NO_FEES := Obj(map[walletLamportsCharged := Null, purchase := Null, buyback := Null])

  /** The record as the panel writes it out, the two costs being null where they are not confirmed. */
  function PanelRecord(
      raw: map<Key, Js>, paid: Js, spend: nat, back: nat, confirmed: Js, complete: Option<int>): map<Key, Js>
  {
    map[
      packSpendMicroUsdg := Str(Print(spend)),
      buybackMicroUsdg := Str(Print(back)),
      packGainMicroUsdg := PanelDifference(spend, back, true),
      packLossMicroUsdg := PanelDifference(spend, back, false),
      quotedCosts := NO_COSTS,
      protectedCostsMicroUsdg := Get(raw, protectedCostsMicroUsdg),
      confirmedCostsMicroUsdg := confirmed,
      cycleGainMicroUsdg := if complete.None? then Null else AtZero(back, complete.value),
      cycleLossMicroUsdg := if complete.None? then Null else AtZero(complete.value, back),
      walletBalanceBeforeMicroUsdg := Null,
      walletBalanceAfterMicroUsdg := Null,
      networkFees := NO_FEES,
      feeReserveBeforeMicroUsdg := Get(raw, feeReserveBeforeMicroUsdg),
      feeReserveTargetMicroUsdg := Get(raw, feeReserveTargetMicroUsdg),
      feeReserveTopUpMicroUsdg := Get(raw, feeReserveTopUpMicroUsdg),
      feeReserveAfterMicroUsdg := Get(raw, feeReserveAfterMicroUsdg),
      plannedHolderRewardsMicroUsdg := Get(raw, holderRewardsMicroUsdg),
      paidHolderRewardsMicroUsdg := NullIfAbsent(paid),
      holderRewardsStatus := Str("computed"),
      distributionStatus := Str(if paid == Null then "pending" else "legacy-settlement-recorded")]
  }

  /** No key is checked here, the costs may not be negative, and the amounts go through `BigInt`. */
  function PanelRound(raw: map<Key, Js>, paid: Js): Option<Js> {
    if !Amounts(raw) then None
    else if !Absent(paid) && !IsMoney(paid) then None
    else
      var spend, back := Value(Get(raw, packSpendMicroUsdg).s), Value(Get(raw, buybackMicroUsdg).s);
      var confirmed := Get(raw, confirmedCostsMicroUsdg);
      if Absent(confirmed) then Some(Obj(PanelRecord(raw, paid, spend, back, Null, None)))
      else if !IsMoney(confirmed) then None
      else Some(Obj(PanelRecord(raw, paid, spend, back, confirmed, Some(spend + Value(confirmed.s)))))
  }

  lemma PanelKeys(raw: map<Key, Js>, paid: Js, spend: nat, back: nat, confirmed: Js, complete: Option<int>)
    ensures PanelRecord(raw, paid, spend, back, confirmed, complete).Keys == ROUND_KEYS
  {
    hide PanelDifference, NO_COSTS, NO_FEES, NullIfAbsent, Get, Print;
  }

  lemma NothingSpent()
    ensures NO_COSTS == NullAmounts(QUOTED_COSTS.allowed) && NO_FEES == NullAmounts(NETWORK_FEES.allowed)
  {
    assert NO_COSTS.fields == NullAmounts(QUOTED_COSTS.allowed).fields;
    assert NO_FEES.fields == NullAmounts(NETWORK_FEES.allowed).fields;
  }

  lemma PanelAmounts(raw: map<Key, Js>, paid: Js, spend: nat, back: nat, confirmed: Js, complete: Option<int>)
    ensures var r := PanelRecord(raw, paid, spend, back, confirmed, complete);
      Get(r, packSpendMicroUsdg) == Str(Print(spend)) && Get(r, buybackMicroUsdg) == Str(Print(back))
  {
    hide PanelDifference, AtZero, NO_COSTS, NO_FEES, NullIfAbsent, Print;
  }

  lemma PanelPacks(raw: map<Key, Js>, paid: Js, spend: nat, back: nat, confirmed: Js, complete: Option<int>)
    ensures var r := PanelRecord(raw, paid, spend, back, confirmed, complete);
      && Get(r, packGainMicroUsdg) == PanelDifference(spend, back, true)
      && Get(r, packLossMicroUsdg) == PanelDifference(spend, back, false)
  {
    hide PanelDifference, AtZero, NO_COSTS, NO_FEES, NullIfAbsent, Print;
  }

  lemma PanelCycle(raw: map<Key, Js>, paid: Js, spend: nat, back: nat, confirmed: Js, complete: Option<int>)
    ensures var r := PanelRecord(raw, paid, spend, back, confirmed, complete);
      && Get(r, confirmedCostsMicroUsdg) == confirmed
      && Get(r, cycleGainMicroUsdg) == (if complete.None? then Null else AtZero(back, complete.value))
      && Get(r, cycleLossMicroUsdg) == (if complete.None? then Null else AtZero(complete.value, back))
  {
    hide PanelDifference, AtZero, NO_COSTS, NO_FEES, NullIfAbsent, Print;
  }

  lemma PanelCopies(raw: map<Key, Js>, paid: Js, spend: nat, back: nat, confirmed: Js, complete: Option<int>)
    ensures var r := PanelRecord(raw, paid, spend, back, confirmed, complete);
      && Get(r, protectedCostsMicroUsdg) == Get(raw, protectedCostsMicroUsdg)
      && Get(r, feeReserveBeforeMicroUsdg) == Get(raw, feeReserveBeforeMicroUsdg)
      && Get(r, feeReserveTargetMicroUsdg) == Get(raw, feeReserveTargetMicroUsdg)
      && Get(r, feeReserveTopUpMicroUsdg) == Get(raw, feeReserveTopUpMicroUsdg)
      && Get(r, feeReserveAfterMicroUsdg) == Get(raw, feeReserveAfterMicroUsdg)
      && Get(r, plannedHolderRewardsMicroUsdg) == Get(raw, holderRewardsMicroUsdg)
      && Get(r, paidHolderRewardsMicroUsdg) == NullIfAbsent(paid)
  {
    hide PanelDifference, AtZero, NO_COSTS, NO_FEES, NullIfAbsent, Print;
  }

  lemma PanelConstants(raw: map<Key, Js>, paid: Js, spend: nat, back: nat, confirmed: Js, complete: Option<int>)
    ensures var r := PanelRecord(raw, paid, spend, back, confirmed, complete);
      && Get(r, quotedCosts) == NO_COSTS && Get(r, networkFees) == NO_FEES
      && Get(r, walletBalanceBeforeMicroUsdg) == Null && Get(r, walletBalanceAfterMicroUsdg) == Null
      && Get(r, holderRewardsStatus) == COMPUTED && Get(r, distributionStatus) == Settlement(paid)
  {
    hide PanelDifference, AtZero, NO_COSTS, NO_FEES, NullIfAbsent, Print;
  }

  lemma RoundCovered(key: Key)
    requires key in ROUND_KEYS
    ensures || Copied(key) || IsResult(key) || key.quotedCosts? || key.networkFees? || key.confirmedCostsMicroUsdg?
            || key.plannedHolderRewardsMicroUsdg? || key.paidHolderRewardsMicroUsdg? || key.holderRewardsStatus?
            || key.distributionStatus? || key.walletBalanceBeforeMicroUsdg? || key.walletBalanceAfterMicroUsdg?
  {
  }

  /** What the two decoders must have in common. */
  predicate SameFigures(
      raw: map<Key, Js>, paid: Js, spend: nat, back: nat, confirmed: Js, complete: Option<int>, f: Figures)
  {
    && Get(raw, packSpendMicroUsdg) == Str(Print(spend)) && Get(raw, buybackMicroUsdg) == Str(Print(back))
    && confirmed == NullIfAbsent(Get(raw, confirmedCostsMicroUsdg))
    && f.packGain == PanelDifference(spend, back, true) && f.packLoss == PanelDifference(spend, back, false)
    && f.cycleGain == (if complete.None? then Null else AtZero(back, complete.value))
    && f.cycleLoss == (if complete.None? then Null else AtZero(complete.value, back))
  }

  lemma PanelDerives(
      raw: map<Key, Js>, paid: Js, spend: nat, back: nat, confirmed: Js, complete: Option<int>, f: Figures, key: Key)
    requires SameFigures(raw, paid, spend, back, confirmed, complete, f) && IsResult(key)
    ensures Get(PanelRecord(raw, paid, spend, back, confirmed, complete), key) == Figure(raw, paid, f, key)
  {
    hide PanelRecord, PanelDifference, AtZero, NullIfAbsent, Get, Print, NullAmounts, COMPUTED, Settlement;
    PanelPacks(raw, paid, spend, back, confirmed, complete);
    PanelCycle(raw, paid, spend, back, confirmed, complete);
  }

  lemma PanelPrints(
      raw: map<Key, Js>, paid: Js, spend: nat, back: nat, confirmed: Js, complete: Option<int>, f: Figures, key: Key)
    requires SameFigures(raw, paid, spend, back, confirmed, complete, f)
    requires key.packSpendMicroUsdg? || key.buybackMicroUsdg? || key.confirmedCostsMicroUsdg?
    ensures Get(PanelRecord(raw, paid, spend, back, confirmed, complete), key) == Figure(raw, paid, f, key)
  {
    hide PanelRecord, PanelDifference, AtZero, NullIfAbsent, Get, Print, NullAmounts, COMPUTED, Settlement;
    PanelAmounts(raw, paid, spend, back, confirmed, complete);
    PanelCycle(raw, paid, spend, back, confirmed, complete);
  }

  lemma CopiedFigure(source: map<Key, Js>, paid: Js, f: Figures, key: Key)
    requires Copied(key)
    ensures Figure(source, paid, f, key) == Get(source, key)
  {
    hide Copied, Get;
  }

  lemma PanelKeeps(
      raw: map<Key, Js>, paid: Js, spend: nat, back: nat, confirmed: Js, complete: Option<int>, f: Figures, key: Key)
    requires Copied(key) && !key.packSpendMicroUsdg? && !key.buybackMicroUsdg?
    ensures Get(PanelRecord(raw, paid, spend, back, confirmed, complete), key) == Figure(raw, paid, f, key)
  {
    hide PanelRecord, NullIfAbsent, Get, NullAmounts, COMPUTED, Settlement, Print, Figure;
    CopiedFigure(raw, paid, f, key);
    PanelCopies(raw, paid, spend, back, confirmed, complete);
  }

  lemma PanelPays(
      raw: map<Key, Js>, paid: Js, spend: nat, back: nat, confirmed: Js, complete: Option<int>, f: Figures, key: Key)
    requires key.plannedHolderRewardsMicroUsdg? || key.paidHolderRewardsMicroUsdg?
    ensures Get(PanelRecord(raw, paid, spend, back, confirmed, complete), key) == Figure(raw, paid, f, key)
  {
    hide PanelRecord, NullIfAbsent, Get, NullAmounts, COMPUTED, Settlement, Print;
    PanelCopies(raw, paid, spend, back, confirmed, complete);
  }

  lemma PanelFills(
      raw: map<Key, Js>, paid: Js, spend: nat, back: nat, confirmed: Js, complete: Option<int>, f: Figures, key: Key)
    requires key in ROUND_KEYS && !Copied(key) && !IsResult(key) && !key.confirmedCostsMicroUsdg?
    requires !key.plannedHolderRewardsMicroUsdg? && !key.paidHolderRewardsMicroUsdg?
    ensures Get(PanelRecord(raw, paid, spend, back, confirmed, complete), key) == Figure(raw, paid, f, key)
  {
    hide PanelRecord, NullIfAbsent, Get, NullAmounts, COMPUTED, Settlement, ROUND_KEYS, NO_COSTS, NO_FEES;
    RoundCovered(key);
    NothingSpent();
    PanelConstants(raw, paid, spend, back, confirmed, complete);
  }

  /** Written out or by table, it is the same record. */
  lemma PanelFigure(
      raw: map<Key, Js>, paid: Js, spend: nat, back: nat, confirmed: Js, complete: Option<int>, f: Figures, key: Key)
    requires key in ROUND_KEYS && SameFigures(raw, paid, spend, back, confirmed, complete, f)
    ensures Get(PanelRecord(raw, paid, spend, back, confirmed, complete), key) == Figure(raw, paid, f, key)
  {
    hide PanelRecord, SameFigures, Figure, Get, ROUND_KEYS;
    if IsResult(key) {
      PanelDerives(raw, paid, spend, back, confirmed, complete, f, key);
    } else if key.packSpendMicroUsdg? || key.buybackMicroUsdg? || key.confirmedCostsMicroUsdg? {
      PanelPrints(raw, paid, spend, back, confirmed, complete, f, key);
    } else if Copied(key) {
      PanelKeeps(raw, paid, spend, back, confirmed, complete, f, key);
    } else if key.plannedHolderRewardsMicroUsdg? || key.paidHolderRewardsMicroUsdg? {
      PanelPays(raw, paid, spend, back, confirmed, complete, f, key);
    } else {
      PanelFills(raw, paid, spend, back, confirmed, complete, f, key);
    }
  }

  lemma PanelIsRound(
      raw: map<Key, Js>, paid: Js, spend: nat, back: nat, confirmed: Js, complete: Option<int>, f: Figures)
    requires SameFigures(raw, paid, spend, back, confirmed, complete, f)
    ensures Obj(PanelRecord(raw, paid, spend, back, confirmed, complete)) == RoundOf(raw, paid, f)
  {
    hide PanelRecord, SameFigures, Figure, ROUND_KEYS;
    PanelKeys(raw, paid, spend, back, confirmed, complete);
    var r := PanelRecord(raw, paid, spend, back, confirmed, complete);
    forall key | key in ROUND_KEYS ensures Get(r, key) == Figure(raw, paid, f, key) {
      PanelFigure(raw, paid, spend, back, confirmed, complete, f, key);
    }
    assert r == RoundOf(raw, paid, f).fields;
  }

  /**
    On a record with exactly the legacy keys the two decoders agree, in what they accept and what
    they return, but for one case: a negative confirmed cost, which only the web reader takes.
   */
  lemma PanelAgrees(source: map<Key, Js>, paid: Js)
    requires source.Keys == LEGACY_ROUND_KEYS
    ensures PanelRound(source, paid)
      == if Negative(Get(source, confirmedCostsMicroUsdg)) then None else WebRound(source, paid)
  {
    hide RoundOf, PanelRecord, Value, Print, LEGACY_ROUND_KEYS, Canonical, MoneyText, SignedText;
    var confirmed := Get(source, confirmedCostsMicroUsdg);
    SignOf(confirmed);
    if Amounts(source) && (Absent(paid) || IsMoney(paid)) {
      var spend, buyback := Get(source, packSpendMicroUsdg), Get(source, buybackMicroUsdg);
      Decimals(spend);
      Decimals(buyback);
      PrintOfMoney(spend);
      PrintOfMoney(buyback);
      var packGain, packLoss := TextDifference(buyback, spend), TextDifference(spend, buyback);
      var s, b := Value(spend.s), Value(buyback.s);
      if Absent(confirmed) {
        PanelIsRound(source, paid, s, b, Null, None, Figures(packGain, packLoss, Null, Null));
      } else if IsMoney(confirmed) {
        Decimals(confirmed);
        var cost := s + Value(confirmed.s);
        PanelIsRound(source, paid, s, b, confirmed, Some(cost),
                     Figures(packGain, packLoss, BigDifference(b, cost), BigDifference(cost, b)));
      }
    }
  }

  lemma PrintOfMoney(v: Js)
    requires IsMoney(v)
    ensures v.Str? && Digits(v.s) && v == Str(Print(Value(v.s)))
  {
    PrintOfValue(v.s);
  }

  lemma SignOf(v: Js)
    ensures IsMoney(v) <==> IsSigned(v) && !Negative(v)
  {
  }

  /** The case where they part: costs of minus one. */
  lemma PanelRejectsRefund()
    ensures exists source: map<Key, Js> ::
      source.Keys == LEGACY_ROUND_KEYS && WebRound(source, Null).Some? && PanelRound(source, Null).None?
  {
    var zero := map key | key in LEGACY_ROUND_KEYS :: Str("0");
    var source := zero[confirmedCostsMicroUsdg := Str("-1")];
    assert source.Keys == LEGACY_ROUND_KEYS;
    assert IsSigned(Str("-1")) && !IsMoney(Str("-1"));
    assert WebRound(source, Null).Some? && PanelRound(source, Null).None?;
  }

  // ---------- what the derived figures mean ----------

  predicate GainLoss(gain: Js, loss: Js, result: int) {
    && IsText(gain) && IsText(loss)
    && (gain == Str("0") || loss == Str("0"))
    && Value(gain.s) - Value(loss.s) == result
  }

  predicate IsText(v: Js) { v.Str? && Canonical(v.s) }

  lemma DifferenceIsGainLoss(a: int, b: int)
    ensures GainLoss(Str(Print(Monus(a, b))), Str(Print(Monus(b, a))), a - b)
  {
    ValueOfPrint(Monus(a, b));
    ValueOfPrint(Monus(b, a));
    assert Print(0) == "0";
  }

  lemma Accepted(source: map<Key, Js>, paid: Js)
    requires WebRound(source, paid).Some?
    ensures IsMoney(Get(source, packSpendMicroUsdg)) && IsMoney(Get(source, buybackMicroUsdg))
    ensures Absent(Get(source, confirmedCostsMicroUsdg)) || IsSigned(Get(source, confirmedCostsMicroUsdg))
    ensures WebRound(source, paid).value.Obj?
  {
    hide IsMoney, IsSigned, Value, Print, LEGACY_ROUND_KEYS, TextDifference, BigDifference;
  }

  lemma RoundFigures(source: map<Key, Js>, paid: Js, f: Figures)
    ensures var round := RoundOf(source, paid, f);
      && round.Obj?
      && Get(round.fields, packGainMicroUsdg) == f.packGain && Get(round.fields, packLossMicroUsdg) == f.packLoss
      && Get(round.fields, cycleGainMicroUsdg) == f.cycleGain && Get(round.fields, cycleLossMicroUsdg) == f.cycleLoss
  {
    hide Figure, ROUND_KEYS;
    ResultsListed();
    ResultFigures(source, paid, f);
  }

  lemma ResultFigures(source: map<Key, Js>, paid: Js, f: Figures)
    ensures Figure(source, paid, f, packGainMicroUsdg) == f.packGain
    ensures Figure(source, paid, f, packLossMicroUsdg) == f.packLoss
    ensures Figure(source, paid, f, cycleGainMicroUsdg) == f.cycleGain
    ensures Figure(source, paid, f, cycleLossMicroUsdg) == f.cycleLoss
  {
    hide NullAmounts, Get, Settlement, NullIfAbsent;
  }

  lemma ResultsListed()
    ensures packGainMicroUsdg in ROUND_KEYS && packLossMicroUsdg in ROUND_KEYS
    ensures cycleGainMicroUsdg in ROUND_KEYS && cycleLossMicroUsdg in ROUND_KEYS
  {
  }

  /** Gain and loss exclude each other and differ by exactly what the round made. */
  lemma Derived(source: map<Key, Js>, paid: Js)
    requires WebRound(source, paid).Some?
    ensures Accounts(source, WebRound(source, paid).value)
  {
    hide GainLoss, Value, Print, Canonical, LEGACY_ROUND_KEYS, IsMoney, IsSigned, Amounts, RoundOf;
    Accepted(source, paid);
    var spend, buyback := Get(source, packSpendMicroUsdg), Get(source, buybackMicroUsdg);
    Decimals(spend);
    Decimals(buyback);
    var confirmed := Get(source, confirmedCostsMicroUsdg);
    var packGain, packLoss := TextDifference(buyback, spend), TextDifference(spend, buyback);
    DifferenceIsGainLoss(Value(buyback.s), Value(spend.s));
    if Absent(confirmed) {
      RoundFigures(source, paid, Figures(packGain, packLoss, Null, Null));
    } else {
      var cost := Value(spend.s) + Micro(confirmed);
      DifferenceIsGainLoss(Value(buyback.s), cost);
      RoundFigures(source, paid,
                   Figures(packGain, packLoss,
                           BigDifference(Value(buyback.s), cost), BigDifference(cost, Value(buyback.s))));
    }
  }

  lemma Decimals(v: Js)
    requires IsMoney(v)
    ensures v.Str? && Digits(v.s)
  {
  }

  ghost predicate Accounts(source: map<Key, Js>, round: Js) {
    var spend, buyback := Get(source, packSpendMicroUsdg), Get(source, buybackMicroUsdg);
    var confirmed := Get(source, confirmedCostsMicroUsdg);
    && IsMoney(spend) && IsMoney(buyback) && (Absent(confirmed) || IsSigned(confirmed)) && round.Obj?
    && GainLoss(Get(round.fields, packGainMicroUsdg), Get(round.fields, packLossMicroUsdg),
                Value(buyback.s) - Value(spend.s))
    && (if Absent(confirmed)
        then Get(round.fields, cycleGainMicroUsdg) == Null == Get(round.fields, cycleLossMicroUsdg)
        else GainLoss(Get(round.fields, cycleGainMicroUsdg), Get(round.fields, cycleLossMicroUsdg),
                      Value(buyback.s) - Value(spend.s) - Micro(confirmed)))
  }

  /** Of what the two layouts have in common, nothing changes but that absent costs become null. */
  lemma SharedMembersKept(source: map<Key, Js>, paid: Js, key: Key)
    requires WebRound(source, paid).Some? && key in source && key in ROUND_KEYS
    ensures var round := WebRound(source, paid).value;
      round.Obj? && Get(round.fields, key) == NullIfAbsent(source[key])
  {
    hide Value, Print, Canonical, MoneyText, SignedText, Figure, Amounts, Copied, LEGACY_ROUND_KEYS, ROUND_KEYS;
    SharedKeys(key);
    AmountsAccepted(source, paid);
    forall f: Figures ensures Figure(source, paid, f, key) == NullIfAbsent(source[key]) {
      SharedFigure(source, paid, f, key);
    }
  }

  /** The planned payout is the old holder rewards, and the status says whether one was paid. */
  lemma PayoutKept(source: map<Key, Js>, paid: Js)
    requires WebRound(source, paid).Some?
    ensures var round := WebRound(source, paid).value;
      && round.Obj?
      && Get(round.fields, plannedHolderRewardsMicroUsdg) == Get(source, holderRewardsMicroUsdg)
      && Get(round.fields, paidHolderRewardsMicroUsdg) == NullIfAbsent(paid)
      && (Get(round.fields, distributionStatus) == Str("pending") <==> paid == Null)
  {
    hide Value, Print, Canonical, MoneyText, SignedText, Amounts, LEGACY_ROUND_KEYS, ROUND_KEYS, Figure;
    PayoutListed();
    PayoutFigures(source, paid);
  }

  lemma PayoutListed()
    ensures plannedHolderRewardsMicroUsdg in ROUND_KEYS && paidHolderRewardsMicroUsdg in ROUND_KEYS
    ensures distributionStatus in ROUND_KEYS
  {
  }

  lemma PayoutFigures(source: map<Key, Js>, paid: Js)
    ensures forall f: Figures ::
      && Figure(source, paid, f, plannedHolderRewardsMicroUsdg) == Get(source, holderRewardsMicroUsdg)
      && Figure(source, paid, f, paidHolderRewardsMicroUsdg) == NullIfAbsent(paid)
      && Figure(source, paid, f, distributionStatus) == Settlement(paid)
    ensures Settlement(paid) == Str("pending") <==> paid == Null
  {
    hide NullAmounts;
    assert "pending"[0] != "legacy-settlement-recorded"[0];
  }

  lemma AmountsAccepted(source: map<Key, Js>, paid: Js)
    requires WebRound(source, paid).Some?
    ensures Amounts(source) && source.Keys == LEGACY_ROUND_KEYS
  {
    hide Amounts, IsMoney, IsSigned, LEGACY_ROUND_KEYS, RoundOf;
  }

  lemma SharedFigure(source: map<Key, Js>, paid: Js, f: Figures, key: Key)
    requires Amounts(source) && key in source && (Copied(key) || key.confirmedCostsMicroUsdg?)
    ensures Figure(source, paid, f, key) == NullIfAbsent(source[key])
  {
    hide MoneyText, SignedText, NullAmounts, Settlement;
  }

  lemma SharedKeys(key: Key)
    requires key in LEGACY_ROUND_KEYS && key in ROUND_KEYS
    ensures Copied(key) || key.confirmedCostsMicroUsdg?
  {
  }

  // ---------- how large the derived figures get ----------

  /** What the round made, when its confirmed costs are known. */
  function Result(source: map<Key, Js>): int
    requires IsMoney(Get(source, packSpendMicroUsdg)) && IsMoney(Get(source, buybackMicroUsdg))
    requires IsSigned(Get(source, confirmedCostsMicroUsdg))
  {
    Value(Get(source, buybackMicroUsdg).s) - Value(Get(source, packSpendMicroUsdg).s)
    - Micro(Get(source, confirmedCostsMicroUsdg))
  }

  /** A gain and a loss are both short enough to be read again exactly when the result is. */
  lemma ShortWhenSmall(gain: Js, loss: Js, result: int)
    requires GainLoss(gain, loss, result)
    ensures MoneyText(gain.s) && MoneyText(loss.s) <==> 0 - Pow10(MAX_DIGITS) < result < Pow10(MAX_DIGITS)
  {
    hide Pow10;
    PrintOfValue(gain.s);
    PrintOfValue(loss.s);
    DigitCount(Value(gain.s), MAX_DIGITS);
    DigitCount(Value(loss.s), MAX_DIGITS);
    assert Value("0") == 0 by { assert Print(0) == "0"; ValueOfPrint(0); }
  }

  // ---------- the derived round under the current reader ----------

  /** The shape of the derived round: a current one, but for how long its cycle result may be. */
  const DERIVED_ROUND := PackRound(Maybe(Is(AnyMoney)))

  lemma LeavesRead(h: Host, v: Js)
    ensures IsMoney(v) ==> Reads(h, MONEY, v) && Reads(h, MAYBE_MONEY, v)
    ensures IsSigned(v) ==> Reads(h, Maybe(Is(SignedMoney)), v)
    ensures IsText(v) ==> Reads(h, Maybe(Is(AnyMoney)), v)
    ensures Reads(h, MAYBE_MONEY, Null) && Reads(h, Maybe(Is(SignedMoney)), Null)
    ensures Reads(h, Maybe(Is(AnyMoney)), Null) && Reads(h, NATIVE_FEE, Null)
    ensures Reads(h, Nullable(AmountKind(Text)), Null) && Reads(h, Nullable(Is(Count)), Null)
    ensures Reads(h, TEXT, COMPUTED) && Reads(h, TEXT, Settlement(v))
  {
    hide Canonical, MoneyText, SignedText;
  }

  lemma NullsRead(h: Host)
    ensures Reads(h, QUOTED_COSTS, NullAmounts(QUOTED_COSTS.allowed))
    ensures Reads(h, NETWORK_FEES, NullAmounts(NETWORK_FEES.allowed))
  {
    hide Read, NATIVE_FEE, MAYBE_MONEY;
    LeavesRead(h, Null);
    ReadRecord(h, QUOTED_COSTS, NullAmounts(QUOTED_COSTS.allowed).fields);
    ReadRecord(h, NETWORK_FEES, NullAmounts(NETWORK_FEES.allowed).fields);
  }

  /** What the decoders know about the figures they derive. */
  predicate Derivable(source: map<Key, Js>, paid: Js, f: Figures) {
    && Amounts(source) && (Absent(paid) || IsMoney(paid))
    && (Absent(Get(source, confirmedCostsMicroUsdg)) || IsSigned(Get(source, confirmedCostsMicroUsdg)))
    && IsMoney(f.packGain) && IsMoney(f.packLoss) && (IsZero(f.packGain) || IsZero(f.packLoss))
    && ((f.cycleGain == Null == f.cycleLoss)
        || (IsText(f.cycleGain) && IsText(f.cycleLoss) && (IsZero(f.cycleGain) || IsZero(f.cycleLoss))))
  }

  lemma CopiedReads(h: Host, source: map<Key, Js>, paid: Js, f: Figures, key: Key)
    requires Derivable(source, paid, f) && Copied(key)
    ensures Reads(h, RoundKind(key, MONEY, Maybe(Is(AnyMoney)), Text), Figure(source, paid, f, key))
  {
    hide Read, Reads, NullAmounts, IsMoney, IsSigned, IsText, QUOTED_COSTS, NETWORK_FEES, MAYBE_MONEY, TEXT, MONEY,
         COMPUTED, Settlement, Get, AmountKind;
    LeavesRead(h, Get(source, key));
  }

  predicate IsResult(key: Key) {
    key.packGainMicroUsdg? || key.packLossMicroUsdg? || key.cycleGainMicroUsdg? || key.cycleLossMicroUsdg?
  }

  lemma ResultReads(h: Host, source: map<Key, Js>, paid: Js, f: Figures, key: Key)
    requires Derivable(source, paid, f) && IsResult(key)
    ensures Reads(h, RoundKind(key, MONEY, Maybe(Is(AnyMoney)), Text), Figure(source, paid, f, key))
  {
    hide Read, Reads, NullAmounts, IsMoney, IsSigned, IsText, QUOTED_COSTS, NETWORK_FEES, MAYBE_MONEY, TEXT, MONEY,
         COMPUTED, Settlement, Get, AmountKind;
    LeavesRead(h, Figure(source, paid, f, key));
  }

  lemma OtherReads(h: Host, source: map<Key, Js>, paid: Js, f: Figures, key: Key)
    requires Derivable(source, paid, f) && !Copied(key) && !IsResult(key)
    ensures Reads(h, RoundKind(key, MONEY, Maybe(Is(AnyMoney)), Text), Figure(source, paid, f, key))
  {
    hide Read, Reads, NullAmounts, IsMoney, IsSigned, IsText, QUOTED_COSTS, NETWORK_FEES, MAYBE_MONEY, TEXT, MONEY,
         COMPUTED, Settlement, Get, AmountKind, NATIVE_FEE;
    NullsRead(h);
    if key.holderRewardsStatus? || key.distributionStatus? {
      LeavesRead(h, paid);
    } else {
      LeavesRead(h, Figure(source, paid, f, key));
    }
  }

  lemma FigureReads(h: Host, source: map<Key, Js>, paid: Js, f: Figures, key: Key)
    requires Derivable(source, paid, f)
    ensures Reads(h, RoundKind(key, MONEY, Maybe(Is(AnyMoney)), Text), Figure(source, paid, f, key))
  {
    hide Read, Reads, RoundKind, Figure, Derivable, Copied, IsResult;
    if Copied(key) {
      CopiedReads(h, source, paid, f, key);
    } else if IsResult(key) {
      ResultReads(h, source, paid, f, key);
    } else {
      OtherReads(h, source, paid, f, key);
    }
  }

  /** The derived round always passes the current reader's own checks. */
  lemma RoundReads(h: Host, source: map<Key, Js>, paid: Js, f: Figures)
    requires Derivable(source, paid, f)
    ensures Reads(h, DERIVED_ROUND, RoundOf(source, paid, f))
  {
    hide Reads, Read, RoundKind, Figure, ROUND_KEYS, LEGACY_ROUND_KEYS, IsMoney, IsSigned, Canonical;
    RoundFigures(source, paid, f);
    var out := RoundOf(source, paid, f).fields;
    forall key | key in out ensures Reads(h, DERIVED_ROUND.members[key].kind, out[key]) {
      FigureReads(h, source, paid, f, key);
    }
    RecordReads(h, DERIVED_ROUND, out);
  }

  lemma RecordReads(h: Host, b: Kind, out: map<Key, Js>)
    requires b.Record? && out.Keys <= b.allowed && b.required <= out.Keys
    requires AlwaysKeys(b.members) <= out.Keys <= b.members.Keys
    requires forall key | key in out :: Reads(h, b.members[key].kind, out[key])
    requires forall c | c in b.checks :: Passes(h, c, out)
    ensures Reads(h, b, Obj(out))
  {
    hide Read, Passes, AlwaysKeys;
    assert forall key | key in out :: Reads(h, b.members[key].kind, out[key]);
    ReadRecord(h, b, out);
  }

  lemma DifferenceIsMoney(a: Js, b: Js)
    requires IsMoney(a) && IsMoney(b)
    ensures IsMoney(TextDifference(a, b))
  {
    hide Canonical, Pow10;
    Decimals(a);
    Decimals(b);
    var d := Monus(Value(a.s), Value(b.s));
    ValueOfPrint(d);
    PrintOfValue(a.s);
    DigitCount(d, MAX_DIGITS);
    DigitCount(Value(a.s), MAX_DIGITS);
  }

  /** What the web reader derives, the current reader accepts as it is, whatever its size. */
  lemma LegacyRoundReads(h: Host, source: map<Key, Js>, paid: Js)
    requires WebRound(source, paid).Some?
    ensures Reads(h, DERIVED_ROUND, WebRound(source, paid).value)
  {
    hide Read, Reads, RoundOf, Value, Print, Canonical, LEGACY_ROUND_KEYS, IsMoney, IsSigned, PackRound;
    Accepted(source, paid);
    var spend, buyback := Get(source, packSpendMicroUsdg), Get(source, buybackMicroUsdg);
    Decimals(spend);
    Decimals(buyback);
    DifferenceIsMoney(spend, buyback);
    DifferenceIsMoney(buyback, spend);
    DifferenceIsGainLoss(Value(buyback.s), Value(spend.s));
    var packGain, packLoss := TextDifference(buyback, spend), TextDifference(spend, buyback);
    var confirmed := Get(source, confirmedCostsMicroUsdg);
    if Absent(confirmed) {
      RoundReads(h, source, paid, Figures(packGain, packLoss, Null, Null));
    } else {
      var cost := Value(spend.s) + Micro(confirmed);
      DifferenceIsGainLoss(Value(buyback.s), cost);
      RoundReads(h, source, paid,
                 Figures(packGain, packLoss,
                         BigDifference(Value(buyback.s), cost), BigDifference(cost, Value(buyback.s))));
    }
  }
}

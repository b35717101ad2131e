/**
  The public community snapshot, schemas 3 to 8: normalising it, and normalising the result again.
 */
module CommunitySnapshot {
  import opened Decimal
  import opened LegacyRound
  import opened PublicCards
  import opened Renormalise
  import opened Schema
  import opened Tables
  import opened Wrappers

  /** The schema a snapshot comes out as: only version 3 is upgraded. */
  function Next(version: nat): nat { if version == 3 then 4 else version }

  predicate Known(version: nat) { 3 <= version <= 8 }

  // ---------- layouts ----------

  const CARD_KEYS := {
    cycleId, productId, rarity, nftAddress, cardName, setName, cardNumber, imageUrl,
    packPriceMicroUsdg, buybackMicroUsdg
  }
  const LEGACY_CARD_KEYS := CARD_KEYS - {packPriceMicroUsdg, buybackMicroUsdg}

  const EVENT_KEYS := {
    cycleId, operationId, packIndex, memo, mint, eventId, sequence, state, name, imageUrl,
    observedAt, finalizedAt, transactionId, proceeds
  }

  function EventMember(key: Key): Kind {
    if key.packIndex? then COUNT
    else if key.memo? || key.mint? || key.name? || key.transactionId? then NULL_TEXT
    else if key.state? then Is(OneOf({"observed", "finalized"}))
    else if key.imageUrl? then Nullable(Is(ImageUrl))
    else if key.observedAt? then Is(Time)
    else if key.finalizedAt? then NULL_TIME
    else if key.proceeds? then Nullable(AmountKind(Text))
    else TEXT
  }

  const EVENT := Exact(map key | key in EVENT_KEYS :: Req(EventMember(key)), [FinalizedAfter])

  function CardKind(version: nat): Kind {
    if version == 8 then EVENT
    else if version == 3 then CardRecord(CARD_KEYS, LEGACY_CARD_KEYS, {cycleId, productId, rarity})
    else CardRecord(CARD_KEYS, CARD_KEYS, CARD_KEYS)
  }

  const METRIC_KEYS := {
    latestObservedProjectPoolMicroUsdg, totalCycleFundingMicroUsdg, totalCollectorSpendMicroUsdg,
    totalBuybacksReturnedMicroUsdg, totalBridgedBackMicroUsdg, totalRewardsPaidMicroUsdg,
    totalRewardsDeferredMicroUsdg, totalQuotedOperatingCostsMicroUsdg, latestRetainedReserveMicroUsdg,
    latestCycleReserveTargetMicroUsdg, completedCycles, skippedCycles, openedPacks
  }

  function MetricMember(key: Key, version: nat): Kind {
    if key.latestObservedProjectPoolMicroUsdg? then Nullable(MONEY)
    else if key.completedCycles? then COUNT
    else if key.skippedCycles? || key.openedPacks? then (if version == 8 then NULL_COUNT else COUNT)
    else if version == 8 then MAYBE_MONEY else MONEY
  }

  /** No metric has to be there: a missing one is read like `undefined`. */
  function Metrics(version: nat): Kind {
    Record(map key | key in METRIC_KEYS :: Req(MetricMember(key, version)), METRIC_KEYS, {}, [])
  }

  function RoundAccounting(version: nat): Kind {
    if version == 3 then DERIVED_ROUND
    else if version == 8 then TypedRound(Text)
    else PackRound(MAYBE_MONEY)
  }

  const CYCLE_KEYS := {
    cycleId, status, reason, updatedAt, paidMicroUsdg, payoutRecipientCount, roundAccounting, transactions
  }

  function CycleKeys(version: nat): set<Key> {
    if version >= 5 then CYCLE_KEYS + {rewardRecipientLimit} else CYCLE_KEYS
  }

  function CycleMember(key: Key, version: nat): Kind {
    if key.reason? then NULL_TEXT
    else if key.updatedAt? then NULL_TIME
    else if key.paidMicroUsdg? then Nullable(MONEY)
    else if key.payoutRecipientCount? then (if version == 8 then NULL_COUNT else COUNT)
    else if key.roundAccounting? then Nullable(RoundAccounting(version))
    else if key.transactions? then List(24, Is(Transaction))
    else if key.rewardRecipientLimit? then
      (if version == 8 then Nullable(Is(RecipientLimit)) else Is(RecipientLimit))
    else TEXT
  }

  function Cycle(version: nat): Kind {
    Exact(map key | key in CycleKeys(version) :: Req(CycleMember(key, version)), [DistinctTransactions])
  }

  const SNAPSHOT_KEYS := {
    schemaVersion, profile, badge, network, historyComplete, generatedAt, nextCycleAt, delayed,
    poolObservedAt, metrics, latestCycle, cards
  }

  function SnapshotKeys(version: nat): set<Key> {
    if version >= 6 then SNAPSHOT_KEYS + {heldPositionCount, heldPositions} else SNAPSHOT_KEYS
  }

  function SnapshotMember(key: Key, version: nat, p: Profile): Kind {
    if key.schemaVersion? then Is(Emit(Num(version), Num(Next(version))))
    else if key.profile? then Is(Emit(ProfileName(p), ProfileName(p)))
    else if key.badge? then Is(Emit(BadgeOf(p), BadgeOf(p)))
    else if key.network? then Is(Emit(NetworkOf(p), NetworkOf(p)))
    else if key.historyComplete? || key.delayed? then Is(Boolean)
    else if key.generatedAt? then Is(Time)
    else if key.nextCycleAt? || key.poolObservedAt? then NULL_TIME
    else if key.metrics? then Metrics(version)
    else if key.latestCycle? then Nullable(Cycle(version))
    else if key.cards? then List(12, CardKind(version))
    else if key.heldPositionCount? then COUNT
    else List(1000, HeldPosition(version == 6))
  }

  function Snapshot(version: nat, p: Profile): Kind {
    Exact(map key | key in SnapshotKeys(version) :: Req(SnapshotMember(key, version, p)),
          if version >= 6 then [PoolFresh, CountIs(heldPositionCount, heldPositions)] else [PoolFresh])
  }

  // ---------- normalising ----------

  /** A version 3 snapshot with the accounting of its latest cycle derived. */
  function Upgraded(v: map<Key, Js>): Option<map<Key, Js>> {
    var cycle := Get(v, latestCycle);
    if !cycle.Obj? || !Get(cycle.fields, roundAccounting).Obj? then Some(v)
    else
      match WebRound(Get(cycle.fields, roundAccounting).fields, Get(cycle.fields, paidMicroUsdg))
      case None => None
      case Some(round) => Some(v[latestCycle := Obj(cycle.fields[roundAccounting := round])])
  }

  function VersionOf(v: map<Key, Js>): nat {
    var version := Get(v, schemaVersion);
    if version.Num? && 3 <= version.n <= 8 then version.n else 0
  }

  function Normalise(h: Host, expected: Option<Profile>, v: Js): Option<Js> {
    if !v.Obj? || !Known(VersionOf(v.fields)) || !IsProfile(Get(v.fields, profile)) then None
    else
      var p := ReadProfile(Get(v.fields, profile));
      if expected.Some? && expected.value != p then None
      else
        var version := VersionOf(v.fields);
        var source := if version == 3 then Upgraded(v.fields) else Some(v.fields);
        if source.None? then None else Read(h, Snapshot(version, p), Obj(source.value))
  }

  // ---------- each layout follows its older form ----------

  lemma CardFollows(version: nat)
    requires Known(version)
    ensures Follows(CardKind(version), CardKind(Next(version)))
  {
    hide Follows;
    if version == 8 {
      EventRegular();
      RegularFollows(EVENT);
    } else {
      CardRecordFollows(CARD_KEYS, CardKind(version), CardKind(Next(version)));
    }
  }

  lemma EventMemberRegular(key: Key)
    ensures Regular(EventMember(key))
    ensures !key.imageUrl? ==> Plain(EventMember(key), EventMember(key))
  {
    hide Regular, Plain, NULL_TEXT, NULL_TIME, COUNT, TEXT, AmountKind;
    LeavesSteady(Text);
    LeavesHere();
    AmountSteady(Text);
    NullableSteady(AmountKind(Text));
  }

  lemma EventRegular()
    ensures Regular(EVENT)
  {
    hide EventMember, EVENT_KEYS;
    forall key ensures Regular(EventMember(key)) { EventMemberRegular(key); }
  }

  lemma MetricsSteady(version: nat)
    ensures Steady(Metrics(version)) && Metrics(version) == Metrics(Next(version))
  {
    hide METRIC_KEYS, MetricMember;
    forall key ensures Steady(MetricMember(key, version)) { MetricSteady(key, version); }
    forall key ensures MetricMember(key, version) == MetricMember(key, Next(version)) { MetricSame(key, version); }
    assert Metrics(version) == Metrics(Next(version));
  }

  lemma MetricSteady(key: Key, version: nat)
    ensures Steady(MetricMember(key, version))
  {
    hide Steady, Regular, Plain, Follows;
    LeavesSteady(Text);
    LeavesHere();
    if key.latestObservedProjectPoolMicroUsdg? || key.completedCycles? {
    } else if key.skippedCycles? || key.openedPacks? {
    } else {
    }
  }

  lemma MetricSame(key: Key, version: nat)
    ensures MetricMember(key, version) == MetricMember(key, Next(version))
  {
  }

  lemma CycleMemberFollows(key: Key, version: nat)
    requires Known(version)
    ensures Follows(CycleMember(key, version), CycleMember(key, Next(version)))
    ensures !key.roundAccounting? || version != 3 ==> Plain(CycleMember(key, version), CycleMember(key, Next(version)))
  {
    hide Steady, Regular, Plain, Follows, RoundAccounting;
    if key.roundAccounting? {
      RoundFollows(version);
    } else {
      CycleMemberSteady(key, version);
      SteadyFollows(CycleMember(key, version));
    }
  }

  lemma CycleMemberSteady(key: Key, version: nat)
    requires !key.roundAccounting?
    ensures Steady(CycleMember(key, version)) && CycleMember(key, version) == CycleMember(key, Next(version))
  {
    hide Steady, Regular, Plain, Follows, RoundAccounting;
    LeavesSteady(Text);
    LeavesHere();
    OtherLeaves();
    if key.reason? || key.updatedAt? || key.paidMicroUsdg? {
    } else if key.payoutRecipientCount? {
    } else if key.transactions? || key.rewardRecipientLimit? {
    } else {
    }
  }

  lemma RoundFollows(version: nat)
    requires Known(version)
    ensures Follows(Nullable(RoundAccounting(version)), Nullable(RoundAccounting(Next(version))))
    ensures version != 3 ==>
      Plain(Nullable(RoundAccounting(version)), Nullable(RoundAccounting(Next(version))))
  {
    hide PackRound, TypedRound;
    RoundsSteady(Text);
    if version == 3 {
      DerivedFollows();
    } else {
      RegularFollows(RoundAccounting(version));
    }
  }

  lemma DerivedFollows()
    ensures Follows(DERIVED_ROUND, PackRound(MAYBE_MONEY))
  {
    hide Follows, RoundKind, ROUND_KEYS;
    forall key
      ensures Follows(RoundKind(key, MONEY, Maybe(Is(AnyMoney)), Text), RoundKind(key, MONEY, MAYBE_MONEY, Text))
    {
      DerivedMemberFollows(key);
    }
    RecordFollows(DERIVED_ROUND, PackRound(MAYBE_MONEY));
  }

  lemma DerivedMemberFollows(key: Key)
    ensures var a, b := RoundKind(key, MONEY, Maybe(Is(AnyMoney)), Text), RoundKind(key, MONEY, MAYBE_MONEY, Text);
      Follows(a, b) && (!key.cycleGainMicroUsdg? && !key.cycleLossMicroUsdg? ==> Plain(a, b))
  {
    if key.cycleGainMicroUsdg? || key.cycleLossMicroUsdg? {
    } else {
      RoundKindSteady(key);
      SteadyFollows(RoundKind(key, MONEY, MAYBE_MONEY, Text));
    }
  }

  lemma RoundKindSteady(key: Key)
    ensures Steady(RoundKind(key, MONEY, MAYBE_MONEY, Text))
  {
    hide Steady, Regular, Plain, Follows, QUOTED_COSTS, NETWORK_FEES, AmountKind;
    LeavesSteady(Text);
    QuotedCostsSteady();
    NetworkFeesSteady();
    AmountSteady(Text);
    NullableSteady(AmountKind(Text));
  }

  lemma CycleFollows(version: nat)
    requires Known(version)
    ensures Follows(Nullable(Cycle(version)), Nullable(Cycle(Next(version))))
  {
    hide CycleMember, CYCLE_KEYS;
    forall key ensures Follows(CycleMember(key, version), CycleMember(key, Next(version))) {
      CycleMemberFollows(key, version);
    }
    RecordFollows(Cycle(version), Cycle(Next(version)));
  }

  lemma SnapshotMemberFollows(key: Key, version: nat, p: Profile)
    requires Known(version)
    ensures Follows(SnapshotMember(key, version, p), SnapshotMember(key, Next(version), p))
    ensures !key.cards? && !key.latestCycle?
      ==> Plain(SnapshotMember(key, version, p), SnapshotMember(key, Next(version), p))
  {
    hide Steady, Metrics, Cycle, CardKind, HeldPosition, NetworkOf, ProfileName, BadgeOf;
    LeavesHere();
    OtherLeaves();
    if key.cards? {
      CardFollows(version);
    } else if key.latestCycle? {
      CycleFollows(version);
    } else if key.schemaVersion? || key.profile? || key.badge? || key.network? {
    } else if key.metrics? {
      MetricsSteady(version);
      SteadyFollows(Metrics(version));
    } else {
      HeldSteady(version == 6);
      SteadyFollows(SnapshotMember(key, version, p));
    }
  }

  lemma SnapshotFollows(version: nat, p: Profile)
    requires Known(version)
    ensures Follows(Snapshot(version, p), Snapshot(Next(version), p))
  {
    hide SnapshotMember, SNAPSHOT_KEYS;
    forall key ensures Follows(SnapshotMember(key, version, p), SnapshotMember(key, Next(version), p)) {
      SnapshotMemberFollows(key, version, p);
    }
    RecordFollows(Snapshot(version, p), Snapshot(Next(version), p));
  }

  // ---------- what can have grown too long ----------

  predicate ShortAmount(v: Js) { v.Str? ==> |v.s| <= MAX_DIGITS }

  predicate ShortRound(round: Js) {
    round.Obj? ==>
      && ShortAmount(Get(round.fields, cycleGainMicroUsdg))
      && ShortAmount(Get(round.fields, cycleLossMicroUsdg))
  }

  predicate ShortCycle(cycle: Js) { cycle.Obj? ==> ShortRound(Get(cycle.fields, roundAccounting)) }

  predicate Short(version: nat, out: map<Key, Js>) {
    ShortCards(Get(out, cards)) && (version == 3 ==> ShortCycle(Get(out, latestCycle)))
  }

  lemma EventFits(card: Js)
    ensures Fits(EVENT, EVENT, card) <==> ShortImage(card)
  {
    hide Fits, Plain, ShortText, EventMember, EVENT_KEYS;
    if card.Obj? {
      EventImage();
      ImageFits(Get(card.fields, imageUrl));
      forall key | key != imageUrl ensures Plain(EventMember(key), EventMember(key)) {
        EventMemberRegular(key);
      }
      FitsAt(EVENT, EVENT, card.fields, {imageUrl});
      AbsentIsShort();
    } else {
      NonRecordFits(EVENT, EVENT, card);
    }
  }

  lemma EventImage()
    ensures imageUrl in EVENT_KEYS && EventMember(imageUrl) == Nullable(Is(ImageUrl))
  {
  }

  lemma CardsFit(version: nat, list: Js)
    requires Known(version)
    ensures Fits(List(12, CardKind(version)), List(12, CardKind(Next(version))), list) <==> ShortCards(list)
  {
    hide ShortImage, ShortCards, Fits;
    forall card: Js ensures Fits(CardKind(version), CardKind(Next(version)), card) <==> ShortImage(card) {
      if version == 8 {
        EventFits(card);
      } else {
        CardRecordFits(CARD_KEYS, CardKind(version), CardKind(Next(version)), card);
      }
    }
    CardListFits(12, CardKind(version), CardKind(Next(version)), list);
  }

  lemma DerivedFits(round: Js)
    ensures Fits(Nullable(DERIVED_ROUND), Nullable(PackRound(MAYBE_MONEY)), round) <==> ShortRound(round)
  {
    hide Plain, RoundKind, ROUND_KEYS;
    if round.Obj? {
      ResultsListed();
      ResultKinds(Get(round.fields, cycleGainMicroUsdg));
      ResultKinds(Get(round.fields, cycleLossMicroUsdg));
      forall key | key !in {cycleGainMicroUsdg, cycleLossMicroUsdg}
        ensures Plain(RoundKind(key, MONEY, Maybe(Is(AnyMoney)), Text), RoundKind(key, MONEY, MAYBE_MONEY, Text))
      {
        DerivedMemberFollows(key);
      }
      FitsAt(DERIVED_ROUND, PackRound(MAYBE_MONEY), round.fields, {cycleGainMicroUsdg, cycleLossMicroUsdg});
    }
  }

  lemma ResultKinds(v: Js)
    ensures forall key | key in {cycleGainMicroUsdg, cycleLossMicroUsdg} ::
      && RoundKind(key, MONEY, Maybe(Is(AnyMoney)), Text) == Maybe(Is(AnyMoney))
      && RoundKind(key, MONEY, MAYBE_MONEY, Text) == MAYBE_MONEY
    ensures Fits(Maybe(Is(AnyMoney)), MAYBE_MONEY, v) <==> ShortAmount(v)
  {
  }

  lemma CycleFits(version: nat, cycle: Js)
    requires Known(version)
    ensures Fits(Nullable(Cycle(version)), Nullable(Cycle(Next(version))), cycle)
      <==> (version == 3 ==> ShortCycle(cycle))
  {
    hide Plain, Fits, CycleMember, CYCLE_KEYS, ShortRound, PackRound;
    NullableFits(Cycle(version), Cycle(Next(version)), cycle);
    if cycle.Obj? {
      RoundListed(version);
      forall key | key != roundAccounting || version != 3
        ensures Plain(CycleMember(key, version), CycleMember(key, Next(version)))
      {
        CycleMemberFollows(key, version);
      }
      if version == 3 {
        FitsAt(Cycle(version), Cycle(Next(version)), cycle.fields, {roundAccounting});
        DerivedFits(Get(cycle.fields, roundAccounting));
        NoRoundIsShort();
      } else {
        FitsAt(Cycle(version), Cycle(Next(version)), cycle.fields, {});
      }
    } else {
      NonRecordFits(Cycle(version), Cycle(Next(version)), cycle);
    }
  }

  lemma RoundListed(version: nat)
    ensures roundAccounting in CYCLE_KEYS
    ensures version == 3 ==>
      && CycleMember(roundAccounting, version) == Nullable(DERIVED_ROUND)
      && CycleMember(roundAccounting, Next(version)) == Nullable(PackRound(MAYBE_MONEY))
  {
  }

  lemma SnapshotFits(version: nat, p: Profile, out: map<Key, Js>)
    requires Known(version)
    ensures Fits(Snapshot(version, p), Snapshot(Next(version), p), Obj(out)) <==> Short(version, out)
  {
    hide Plain, Fits, SnapshotMember, SNAPSHOT_KEYS, ShortCycle, ShortCards;
    PartsListed(version, p);
    PartsListed(Next(version), p);
    AbsentIsShort();
    NoCycleIsShort();
    forall key | key !in {cards, latestCycle}
      ensures Plain(SnapshotMember(key, version, p), SnapshotMember(key, Next(version), p))
    {
      SnapshotMemberFollows(key, version, p);
    }
    FitsAt(Snapshot(version, p), Snapshot(Next(version), p), out, {cards, latestCycle});
    CardsFit(version, Get(out, cards));
    CycleFits(version, Get(out, latestCycle));
  }

  lemma NoCycleIsShort()
    ensures ShortCycle(Undefined)
  {
  }

  lemma PartsListed(version: nat, p: Profile)
    ensures cards in SNAPSHOT_KEYS && latestCycle in SNAPSHOT_KEYS
    ensures SnapshotMember(cards, version, p) == List(12, CardKind(version))
    ensures SnapshotMember(latestCycle, version, p) == Nullable(Cycle(version))
  {
  }

  // ---------- normalising twice ----------

  lemma HeaderMembers(version: nat, p: Profile)
    ensures schemaVersion in SNAPSHOT_KEYS && profile in SNAPSHOT_KEYS
    ensures SnapshotMember(schemaVersion, version, p) == Is(Emit(Num(version), Num(Next(version))))
    ensures SnapshotMember(profile, version, p) == Is(Emit(ProfileName(p), ProfileName(p)))
  {
  }

  /** The normal form names the upgraded schema and the same profile. */
  lemma Header(h: Host, version: nat, p: Profile, source: map<Key, Js>)
    requires Known(version) && Read(h, Snapshot(version, p), Obj(source)).Some?
    ensures var out := Read(h, Snapshot(version, p), Obj(source)).value;
      && out.Obj? && VersionOf(out.fields) == Next(version)
      && IsProfile(Get(out.fields, profile)) && ReadProfile(Get(out.fields, profile)) == p
  {
    hide Read, SnapshotMember, SNAPSHOT_KEYS;
    HeaderMembers(version, p);
    MemberRead(h, Snapshot(version, p), source, schemaVersion);
    MemberRead(h, Snapshot(version, p), source, profile);
    EmitRead(h, Num(version), Num(Next(version)), Get(source, schemaVersion));
    EmitRead(h, ProfileName(p), ProfileName(p), Get(source, profile));
    assert ProfileName(Testnet) != ProfileName(Mainnet) by {
      assert "testnet"[0] != "mainnet"[0];
    }
  }

  /** A normal form is accepted again, and returned unchanged, exactly when nothing in it has grown too long. */
  lemma NormaliseTwice(h: Host, expected: Option<Profile>, v: Js)
    requires Sane(h) && Normalise(h, expected, v).Some?
    ensures var out := Normalise(h, expected, v).value;
      && out.Obj? && VersionOf(out.fields) == Next(VersionOf(v.fields))
      && Normalise(h, expected, out) == if Short(VersionOf(v.fields), out.fields) then Some(out) else None
  {
    hide Read, Snapshot, Upgraded, Short, Follows, Fits, IsProfile, ReadProfile;
    var p := ReadProfile(Get(v.fields, profile));
    var version := VersionOf(v.fields);
    var source := if version == 3 then Upgraded(v.fields).value else v.fields;
    var out := Normalise(h, expected, v).value;
    IsSnapshot(version, p);
    IsSnapshot(Next(version), p);
    SnapshotFollows(version, p);
    ReadSettles(h, Snapshot(version, p), Snapshot(Next(version), p), Obj(source));
    Header(h, version, p, source);
    SnapshotFits(version, p, out.fields);
  }

  lemma IsSnapshot(version: nat, p: Profile)
    ensures Snapshot(version, p).Record?
  {
  }

  // ---------- what an accepted record is ----------

  predicate Excludes(gain: Js, loss: Js) { gain == Null == loss || IsZero(gain) || IsZero(loss) }

  /** A round shows a gain or a loss, of packs and of the cycle, but never both. */
  predicate RoundGuarantee(round: Js) {
    round.Obj? ==>
      && Excludes(Get(round.fields, packGainMicroUsdg), Get(round.fields, packLossMicroUsdg))
      && Excludes(Get(round.fields, cycleGainMicroUsdg), Get(round.fields, cycleLossMicroUsdg))
  }

  /** No transaction is listed twice, whatever the case of its hexadecimal id. */
  predicate CycleGuarantee(cycle: Js) {
    cycle.Obj? ==>
      && RoundGuarantee(Get(cycle.fields, roundAccounting))
      && Get(cycle.fields, transactions).Arr?
      && |Get(cycle.fields, transactions).items| <= 24
      && (forall v | v in Get(cycle.fields, transactions).items ::
            v.Obj? && chain in v.fields && id in v.fields && v.fields[id].Str?)
      && Distinct(Get(cycle.fields, transactions).items)
  }

  /** The pool value and its time come together; it is not from the future, and if old, marked as delayed. */
  predicate PoolGuarantee(h: Host, out: map<Key, Js>) {
    var pool, generated, m := Get(out, poolObservedAt), Get(out, generatedAt), Get(out, metrics);
    && m.Obj?
    && (pool == Null <==> Get(m.fields, latestObservedProjectPoolMicroUsdg) == Null)
    && (pool != Null ==>
          && TimeOf(h, pool) <= TimeOf(h, generated)
          && (Get(out, delayed) == Bool(true) || TimeOf(h, generated) - TimeOf(h, pool) <= 90000))
  }

  lemma RoundGuaranteed(h: Host, version: nat, raw: Js)
    requires Known(version) && Read(h, Nullable(RoundAccounting(version)), raw).Some?
    ensures RoundGuarantee(Read(h, Nullable(RoundAccounting(version)), raw).value)
  {
    hide Read, RoundMembers, ROUND_KEYS, TYPED_KEYS;
    var k := RoundAccounting(version);
    NullableRead(h, k, raw);
    if raw != Null {
      SomeRead(h, k, raw);
      RecordRead(h, k, raw.fields);
      var out := Read(h, k, raw).value.fields;
      assert NullExclusive(cycleGainMicroUsdg, cycleLossMicroUsdg) in k.checks;
      if version == 8 {
        assert NullExclusive(packGainMicroUsdg, packLossMicroUsdg) in k.checks;
      } else {
        assert Exclusive(packGainMicroUsdg, packLossMicroUsdg) in k.checks;
      }
    }
  }

  lemma CycleGuaranteed(h: Host, version: nat, raw: Js)
    requires Known(version) && Read(h, Nullable(Cycle(version)), raw).Some?
    ensures CycleGuarantee(Read(h, Nullable(Cycle(version)), raw).value)
  {
    hide Read, CycleMember, CYCLE_KEYS, RoundGuarantee, RoundAccounting, Distinct;
    var k := Cycle(version);
    NullableRead(h, k, raw);
    if raw != Null {
      SomeRead(h, k, raw);
      RecordRead(h, k, raw.fields);
      var out := Read(h, k, raw).value.fields;
      assert DistinctTransactions in k.checks && Passes(h, DistinctTransactions, out);
      CyclePartsListed(version);
      RoundGuaranteed(h, version, Get(raw.fields, roundAccounting));
      ListBound(h, 24, Is(Transaction), Get(raw.fields, transactions));
    }
  }

  lemma ListBound(h: Host, max: nat, k: Kind, v: Js)
    requires Read(h, List(max, k), v).Some?
    ensures var out := Read(h, List(max, k), v).value; out.Arr? && |out.items| <= max
  {
    hide Accepts, Given, Passes;
    ItemsRead(h, k, v.items);
  }

  lemma CyclePartsListed(version: nat)
    ensures roundAccounting in CYCLE_KEYS && transactions in CYCLE_KEYS
    ensures CycleMember(roundAccounting, version) == Nullable(RoundAccounting(version))
    ensures CycleMember(transactions, version) == List(24, Is(Transaction))
  {
  }

  lemma PlacesListed(version: nat, p: Profile)
    ensures badge in SNAPSHOT_KEYS && network in SNAPSHOT_KEYS
    ensures SnapshotMember(badge, version, p) == Is(Emit(BadgeOf(p), BadgeOf(p)))
    ensures SnapshotMember(network, version, p) == Is(Emit(NetworkOf(p), NetworkOf(p)))
  {
  }

  /**
    What can be relied on in a normal form: it is complete, names one profile throughout, its pool
    value is fresh or marked, held positions are counted, and gains, losses and transactions of the
    latest cycle are consistent.
   */
  lemma Guaranteed(h: Host, expected: Option<Profile>, v: Js)
    requires Normalise(h, expected, v).Some?
    ensures var version, p := VersionOf(v.fields), ReadProfile(Get(v.fields, profile));
      var out := Normalise(h, expected, v).value;
      && out.Obj? && out.fields.Keys == SnapshotKeys(version)
      && (expected.Some? ==> expected.value == p)
      && Get(out.fields, profile) == ProfileName(p)
      && Get(out.fields, badge) == BadgeOf(p) && Get(out.fields, network) == NetworkOf(p)
      && PoolGuarantee(h, out.fields)
      && (version >= 6 ==>
            && Get(out.fields, heldPositions).Arr?
            && Get(out.fields, heldPositionCount) == Num(|Get(out.fields, heldPositions).items|))
      && CycleGuarantee(Get(out.fields, latestCycle))
  {
    hide Read, SnapshotMember, SNAPSHOT_KEYS, Upgraded, IsProfile, ReadProfile, CycleGuarantee, Cycle, ProfileName,
         BadgeOf, NetworkOf;
    var version, p := VersionOf(v.fields), ReadProfile(Get(v.fields, profile));
    var source := if version == 3 then Upgraded(v.fields).value else v.fields;
    var k := Snapshot(version, p);
    RecordRead(h, k, source);
    var out := Read(h, k, Obj(source)).value.fields;
    PlacesListed(version, p);
    HeaderMembers(version, p);
    PartsListed(version, p);
    EmitRead(h, ProfileName(p), ProfileName(p), Get(source, profile));
    EmitRead(h, BadgeOf(p), BadgeOf(p), Get(source, badge));
    EmitRead(h, NetworkOf(p), NetworkOf(p), Get(source, network));
    CycleGuaranteed(h, version, Get(source, latestCycle));
    assert PoolFresh in k.checks && Passes(h, PoolFresh, out);
    if version >= 6 {
      assert CountIs(heldPositionCount, heldPositions) in k.checks;
      assert Passes(h, CountIs(heldPositionCount, heldPositions), out);
    }
  }

  // ---------- the condition, read off the input ----------

  /** What the latest cycle made, where a version 3 round says so. */
  function CycleResult(cycle: Js): Option<int> {
    if !cycle.Obj? || !Get(cycle.fields, roundAccounting).Obj? then None
    else
      var round := Get(cycle.fields, roundAccounting).fields;
      if && IsMoney(Get(round, packSpendMicroUsdg)) && IsMoney(Get(round, buybackMicroUsdg))
         && IsSigned(Get(round, confirmedCostsMicroUsdg))
      then Some(Result(round)) else None
  }

  predicate ResultInRange(cycle: Js) {
    CycleResult(cycle).Some? ==> 0 - Pow10(MAX_DIGITS) < CycleResult(cycle).value < Pow10(MAX_DIGITS)
  }

  predicate Renormalisable(h: Host, v: map<Key, Js>) {
    ImagesPrintShort(h, Get(v, cards)) && (VersionOf(v) == 3 ==> ResultInRange(Get(v, latestCycle)))
  }

  lemma EventRead(h: Host, card: Js)
    requires Read(h, EVENT, card).Some?
    ensures ShortImage(Read(h, EVENT, card).value) <==> CardPrintsShort(h, card)
  {
    hide Accepts, Given, Passes, ReadItems, EventMember, EVENT_KEYS, ShortText, PrintsShort;
    EventImage();
    ImageRead(h, Get(card.fields, imageUrl));
    MemberRead(h, EVENT, card.fields, imageUrl);
  }

  lemma CardsRead(h: Host, version: nat, list: Js)
    requires Known(version) && Read(h, List(12, CardKind(version)), list).Some?
    ensures ShortCards(Read(h, List(12, CardKind(version)), list).value) <==> ImagesPrintShort(h, list)
  {
    hide Read, ShortImage, CardPrintsShort, ShortCards, ImagesPrintShort;
    forall card: Js | Read(h, CardKind(version), card).Some?
      ensures ShortImage(Read(h, CardKind(version), card).value) <==> CardPrintsShort(h, card)
    {
      if version == 8 {
        EventRead(h, card);
      } else {
        CardRecordRead(h, CARD_KEYS, CardKind(version), card);
      }
    }
    CardListRead(h, 12, CardKind(version), list);
  }

  /** The derived gain and loss are short exactly when the round's result is in range. */
  lemma WebRoundShort(source: map<Key, Js>, paid: Js)
    requires WebRound(source, paid).Some?
    ensures ShortRound(WebRound(source, paid).value)
      <==> (IsSigned(Get(source, confirmedCostsMicroUsdg)) ==>
              && IsMoney(Get(source, packSpendMicroUsdg)) && IsMoney(Get(source, buybackMicroUsdg))
              && 0 - Pow10(MAX_DIGITS) < Result(source) < Pow10(MAX_DIGITS))
  {
    hide WebRound, Canonical, Value, Micro, Pow10;
    Derived(source, paid);
    var round := WebRound(source, paid).value;
    if IsSigned(Get(source, confirmedCostsMicroUsdg)) {
      ShortWhenSmall(Get(round.fields, cycleGainMicroUsdg), Get(round.fields, cycleLossMicroUsdg), Result(source));
    }
  }

  lemma CycleRead(h: Host, cycle: map<Key, Js>, round: Js)
    requires Read(h, Nullable(Cycle(3)), Obj(cycle)).Some?
    requires Reads(h, Nullable(DERIVED_ROUND), round) && Get(cycle, roundAccounting) == round
    ensures ShortCycle(Read(h, Nullable(Cycle(3)), Obj(cycle)).value) <==> ShortRound(round)
  {
    hide Accepts, Given, Passes, ReadItems, CycleMember, CYCLE_KEYS, ShortRound, PackRound;
    RoundListed(3);
    MemberRead(h, Cycle(3), cycle, roundAccounting);
  }

  /** A latest cycle of version 3, its accounting derived or absent. */
  lemma LatestRead(h: Host, v: map<Key, Js>)
    requires Upgraded(v).Some?
    requires var cycle := Get(Upgraded(v).value, latestCycle); Read(h, Nullable(Cycle(3)), cycle).Some?
    ensures var cycle := Get(Upgraded(v).value, latestCycle);
      ShortCycle(Read(h, Nullable(Cycle(3)), cycle).value) <==> ResultInRange(Get(v, latestCycle))
  {
    hide Read, Reads, Cycle, PackRound, WebRound, Result, IsMoney, IsSigned, ShortRound, Pow10;
    var before, cycle := Get(v, latestCycle), Get(Upgraded(v).value, latestCycle);
    IsCycle();
    NullableRead(h, Cycle(3), cycle);
    if cycle.Obj? {
      var round := Get(cycle.fields, roundAccounting);
      if Get(before.fields, roundAccounting).Obj? {
        var source, paid := Get(before.fields, roundAccounting).fields, Get(before.fields, paidMicroUsdg);
        LegacyRoundReads(h, source, paid);
        NullableReads(h, DERIVED_ROUND, round);
        CycleRead(h, cycle.fields, round);
        WebRoundShort(source, paid);
        Accepted(source, paid);
      } else {
        RoundOfCycle(h, cycle.fields);
        CycleRead(h, cycle.fields, round);
        NoRoundIsShort();
      }
    }
  }

  lemma IsCycle()
    ensures Cycle(3).Record? && DERIVED_ROUND.Record?
  {
  }

  lemma NoRoundIsShort()
    ensures ShortRound(Null) && ShortRound(Undefined)
  {
  }

  lemma NullableReads(h: Host, k: Kind, v: Js)
    requires Reads(h, k, v) || v == Null
    ensures Reads(h, Nullable(k), v)
  {
  }

  /** An accounting that is no record is null. */
  lemma RoundOfCycle(h: Host, cycle: map<Key, Js>)
    requires Read(h, Nullable(Cycle(3)), Obj(cycle)).Some? && !Get(cycle, roundAccounting).Obj?
    ensures Get(cycle, roundAccounting) == Null && Reads(h, Nullable(DERIVED_ROUND), Null)
  {
    hide Accepts, Given, Passes, ReadItems, CycleMember, CYCLE_KEYS, PackRound;
    RoundListed(3);
    MemberRead(h, Cycle(3), cycle, roundAccounting);
    IsCycle();
    NullableRead(h, DERIVED_ROUND, Get(cycle, roundAccounting));
  }

  lemma ShortIff(h: Host, version: nat, p: Profile, v: map<Key, Js>)
    requires Known(version) && VersionOf(v) == version
    requires version == 3 ==> Upgraded(v).Some?
    requires var source := if version == 3 then Upgraded(v).value else v;
      Read(h, Snapshot(version, p), Obj(source)).Some?
    ensures var source := if version == 3 then Upgraded(v).value else v;
      var out := Read(h, Snapshot(version, p), Obj(source)).value;
      out.Obj? && (Short(version, out.fields) <==> Renormalisable(h, v))
  {
    hide Read, SnapshotMember, SNAPSHOT_KEYS, CardKind, Cycle, ShortCards, ShortCycle, ImagesPrintShort, ResultInRange;
    var source := if version == 3 then Upgraded(v).value else v;
    PartsListed(version, p);
    MemberRead(h, Snapshot(version, p), source, cards);
    MemberRead(h, Snapshot(version, p), source, latestCycle);
    assert Get(source, cards) == Get(v, cards);
    CardsRead(h, version, Get(v, cards));
    if version == 3 {
      LatestRead(h, v);
    }
  }

  /**
    Normalising is a fixed point on what it accepts: the result is accepted again and comes back
    unchanged, version 3 having become version 4, exactly when every image URL prints within the
    text limit and a version 3 cycle made or lost less than 10 to the 78.
   */
  lemma FixedPoint(h: Host, expected: Option<Profile>, v: Js)
    requires Sane(h) && Normalise(h, expected, v).Some?
    ensures var out := Normalise(h, expected, v).value;
      && out.Obj? && VersionOf(out.fields) == Next(VersionOf(v.fields))
      && Normalise(h, expected, out) == if Renormalisable(h, v.fields) then Some(out) else None
  {
    hide Read, Snapshot, Upgraded, Short, Renormalisable, IsProfile, ReadProfile;
    NormaliseTwice(h, expected, v);
    ShortIff(h, VersionOf(v.fields), ReadProfile(Get(v.fields, profile)), v.fields);
  }
}

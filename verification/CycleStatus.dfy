/**
  The public cycle status: the domain's own normaliser, schemas 2 and 3, and the web reader, schemas
  1 to 6.  Both recompute the countdown and the reason of a pause.
 */
module CycleStatus {
  import opened PublicCards
  import opened Renormalise
  import opened Schema
  import opened Tables
  import opened Wrappers

  datatype Side = Domain | Web

  function Next(version: nat): nat { if version < 3 then 3 else version }

  predicate Known(side: Side, version: nat) {
    match side case Domain => 2 <= version <= 3 case Web => 2 <= version <= 6
  }

  // ---------- layouts ----------

  const CARD_KEYS := {
    productId, rarity, nftAddress, cardName, setName, cardNumber, imageUrl, packPriceMicroUsdg, buybackMicroUsdg
  }
  const LEGACY_CARD_KEYS := CARD_KEYS - {packPriceMicroUsdg, buybackMicroUsdg}

  function CardKind(version: nat): Kind {
    if version == 2 then CardRecord(CARD_KEYS, LEGACY_CARD_KEYS, {productId, rarity})
    else CardRecord(CARD_KEYS, CARD_KEYS, CARD_KEYS)
  }

  const ACTION_STATUSES := {"pending", "complete", "failed"}
  const PAUSED := Nullable(Is(OneOf({"operator-paused"})))

  /** The domain tests the status itself, the web reader the string made of it. */
  function ActionStatus(side: Side): Kind {
    Is(if side == Domain then OneOf(ACTION_STATUSES) else TextIn(ACTION_STATUSES))
  }

  function ExecutionState(side: Side): Kind {
    Is(if side == Domain then OneOf({"active", "paused"}) else TextIn({"active", "paused", "unknown"}))
  }

  function Action(side: Side): Kind {
    Exact(map[type' := Req(TEXT), status := Req(ActionStatus(side)), at := Req(Is(Time))], [])
  }

  function RoundAccounting(side: Side, version: nat): Kind {
    if version == 2 then Is(AlwaysNull)
    else if side == Domain then Nullable(TypedRound(AnyText))
    else if version == 6 then Nullable(TypedRound(Text))
    else Nullable(PackRound(MAYBE_MONEY))
  }

  const REQUIRED_KEYS := {
    cycleId, status, selectedPackId, maxBoostersPerCycle, plannedBoosters, openedBoosters, actions, cards,
    returnedMicroUsdg, rewardStatus, roundAccounting
  }
  const OPTIONAL_KEYS := {reason, startedAt, updatedAt, spentMicroUsdg, paidMicroUsdg}

  function CycleMember(key: Key, side: Side, version: nat): Kind {
    if key.cycleId? || key.status? then TEXT
    else if key.selectedPackId? || key.rewardStatus? then NULL_TEXT
    else if key.maxBoostersPerCycle? then Nullable(Is(Positive))
    else if key.plannedBoosters? || key.openedBoosters? then COUNT
    else if key.actions? then List(128, Action(side))
    else if key.cards? then List(60, CardKind(version))
    else if key.roundAccounting? then RoundAccounting(side, version)
    else if key.reason? then Is(LowerReason)
    else if key.startedAt? || key.updatedAt? then Is(Time)
    else Nullable(MONEY)
  }

  function CycleMembers(side: Side, version: nat): Members {
    map key | key in REQUIRED_KEYS + OPTIONAL_KEYS ::
      if key in REQUIRED_KEYS then Req(CycleMember(key, side, version)) else Opt(CycleMember(key, side, version))
  }

  function Cycle(side: Side, version: nat): Kind {
    var legacy := if version == 2 then {roundAccounting} else {};
    Record(CycleMembers(side, version), REQUIRED_KEYS + OPTIONAL_KEYS - legacy, REQUIRED_KEYS - legacy,
           [Window(openedBoosters, cards, 60)])
  }

  const SCHEDULER := Exact(
    map[
      nextCycleAt := Req(NULL_TIME), nextReconcileAt := Req(NULL_TIME), automationEnabled := Req(Is(Boolean)),
      paused := Req(Is(Boolean)), pendingReason := Req(NULL_TEXT)],
    [OneWakeup])

  const STATUS_KEYS := {
    schemaVersion, profile, network, executionState, executionReason, generatedAt, nextCycleAt,
    countdownSeconds, cycle
  }

  function StatusKeys(version: nat): set<Key> {
    STATUS_KEYS + (if version >= 4 then {heldPositionCount, heldPositions} else {})
    + (if version >= 6 then {scheduler} else {})
  }

  function StatusMember(key: Key, side: Side, version: nat, p: Profile): Kind {
    if key.schemaVersion? then Is(Emit(Num(version), Num(Next(version))))
    else if key.profile? then Is(Emit(ProfileName(p), ProfileName(p)))
    else if key.network? then Is(Emit(NetworkOf(p), NetworkOf(p)))
    else if key.executionState? then ExecutionState(side)
    else if key.executionReason? then PAUSED
    else if key.generatedAt? || key.nextCycleAt? then Is(Time)
    else if key.countdownSeconds? || key.heldPositionCount? then COUNT
    else if key.cycle? then Nullable(Cycle(side, version))
    else if key.scheduler? then SCHEDULER
    else List(1000, HeldPosition(version == 4))
  }

  function Status(side: Side, version: nat, p: Profile): Kind {
    Exact(map key | key in StatusKeys(version) :: Req(StatusMember(key, side, version, p)),
          [Countdown, PausedReason]
          + (if version >= 4 then [CountIs(heldPositionCount, heldPositions)] else []))
  }

  // ---------- normalising ----------

  const IDLE_KEYS := {schemaVersion, generatedAt, nextCycleAt, countdownSeconds, cycle}

  /** Version 1 knows no profile, network or execution state; only an idle one is read. */
  function Idle(v: map<Key, Js>, p: Profile): map<Key, Js> {
    map key | key in STATUS_KEYS :: IdleMember(v, p, key)
  }

  function IdleMember(v: map<Key, Js>, p: Profile, key: Key): Js {
    if key.schemaVersion? then Num(3)
    else if key.profile? then ProfileName(p)
    else if key.network? then NetworkOf(p)
    else if key.executionState? then Str("unknown")
    else if key.executionReason? || key.cycle? then Null
    else Get(v, key)
  }

  predicate IdleOk(h: Host, v: map<Key, Js>) {
    && v.Keys == IDLE_KEYS && Get(v, cycle) == Null
    && Accepts(h, Time, Get(v, generatedAt)) && Accepts(h, Time, Get(v, nextCycleAt))
    && Accepts(h, Count, Get(v, countdownSeconds)) && Passes(h, Countdown, v)
  }

  function VersionOf(v: map<Key, Js>): nat {
    var version := Get(v, schemaVersion);
    if version.Num? && 0 <= version.n <= 6 then version.n else 0
  }

  function Normalise(h: Host, side: Side, expected: Option<Profile>, v: Js): Option<Js> {
    if !v.Obj? then None
    else if side == Web && VersionOf(v.fields) == 1 then
      (if IdleOk(h, v.fields) && expected.Some? then Some(Obj(Idle(v.fields, expected.value))) else None)
    else if !Known(side, VersionOf(v.fields)) || !IsProfile(Get(v.fields, profile)) then None
    else
      var p := ReadProfile(Get(v.fields, profile));
      if expected.Some? && expected.value != p then None
      else Read(h, Status(side, VersionOf(v.fields), p), v)
  }

  // ---------- following ----------

  /** From one reader's output to another's input: a newer version, or the web after the domain. */
  predicate Leads(a: Side, version: nat, b: Side, later: nat) {
    Known(a, version) && Known(b, later) && (a == b || b == Web) && later == Next(version)
  }

  lemma LeavesOfStatus()
    ensures Steady(Nullable(Is(Positive))) && Steady(Is(LowerReason)) && Steady(PAUSED)
  {
  }

  lemma TextsFollow(a: Side, b: Side)
    requires a == b || b == Web
    ensures Follows(ExecutionState(a), ExecutionState(b)) && Plain(ExecutionState(a), ExecutionState(b))
    ensures Follows(ActionStatus(a), ActionStatus(b)) && Plain(ActionStatus(a), ActionStatus(b))
  {
  }

  lemma ActionFollows(a: Side, b: Side)
    requires a == b || b == Web
    ensures Follows(List(128, Action(a)), List(128, Action(b))) && Plain(List(128, Action(a)), List(128, Action(b)))
  {
    hide ActionStatus, Steady, TEXT, Regular, Follows, Plain;
    LeavesSteady(Text);
    LeavesHere();
    TextsFollow(a, b);
    SteadyFollows(TEXT);
    SteadyFollows(Is(Time));
    RecordFollows(Action(a), Action(b));
    RecordPlain(Action(a), Action(b));
    ListFollows(128, Action(a), Action(b));
  }

  lemma SchedulerSteady()
    ensures Steady(SCHEDULER)
  {
    hide Steady, Exact, NULL_TIME, NULL_TEXT;
    LeavesSteady(Text);
    LeavesHere();
    OtherLeaves();
    ExactSteady(
      map[
        nextCycleAt := Req(NULL_TIME), nextReconcileAt := Req(NULL_TIME), automationEnabled := Req(Is(Boolean)),
        paused := Req(Is(Boolean)), pendingReason := Req(NULL_TEXT)],
      [OneWakeup]);
  }

  /** The accounting carries over, except that of the domain's third version to the web. */
  lemma RoundFollows(a: Side, version: nat, b: Side, later: nat)
    requires Leads(a, version, b, later) && (a == b || version == 2)
    ensures Follows(RoundAccounting(a, version), RoundAccounting(b, later))
    ensures Plain(RoundAccounting(a, version), RoundAccounting(b, later))
  {
    hide PackRound, TypedRound;
    RoundsSteady(Text);
    RoundsSteady(AnyText);
    if version != 2 {
      RegularFollows(RoundAccounting(a, version));
    }
  }

  lemma CycleMemberFollows(key: Key, a: Side, version: nat, b: Side, later: nat)
    requires Leads(a, version, b, later) && (a == b || version == 2 || !key.roundAccounting?)
    ensures Follows(CycleMember(key, a, version), CycleMember(key, b, later))
    ensures !key.cards? ==> Plain(CycleMember(key, a, version), CycleMember(key, b, later))
  {
    hide Steady, Regular, Plain, Follows, RoundAccounting, CardKind, Action;
    if key.cards? {
      CardsFollow(version, later);
    } else if key.actions? {
      ActionFollows(a, b);
    } else if key.roundAccounting? {
      RoundFollows(a, version, b, later);
    } else {
      CycleLeafSteady(key, a, version);
      SteadyFollows(CycleMember(key, a, version));
    }
  }

  lemma CycleLeafSteady(key: Key, side: Side, version: nat)
    requires !key.cards? && !key.actions? && !key.roundAccounting?
    ensures Steady(CycleMember(key, side, version))
  {
    hide Steady, Regular, Plain, Follows;
    LeavesSteady(Text);
    LeavesHere();
    LeavesOfStatus();
    if key.cycleId? || key.status? || key.selectedPackId? || key.rewardStatus? {
    } else if key.maxBoostersPerCycle? || key.plannedBoosters? || key.openedBoosters? {
    } else if key.reason? || key.startedAt? || key.updatedAt? {
    } else {
    }
  }

  lemma CardsFollow(version: nat, later: nat)
    requires 2 <= version && later == Next(version)
    ensures Follows(List(60, CardKind(version)), List(60, CardKind(later)))
  {
    hide CardMember, Follows;
    CardRecordFollows(CARD_KEYS, CardKind(version), CardKind(later));
    ListFollows(60, CardKind(version), CardKind(later));
  }

  lemma CycleShape(a: Side, version: nat, b: Side, later: nat)
    requires Leads(a, version, b, later)
    ensures SameShape(Cycle(a, version), Cycle(b, later))
  {
    hide CycleMember, CycleMembers, REQUIRED_KEYS, OPTIONAL_KEYS, AlwaysKeys;
    MembersShape(a, version);
    MembersShape(b, later);
  }

  lemma MembersShape(side: Side, version: nat)
    ensures CycleMembers(side, version).Keys == REQUIRED_KEYS + OPTIONAL_KEYS
    ensures AlwaysKeys(CycleMembers(side, version)) == REQUIRED_KEYS
    ensures forall key | key in CycleMembers(side, version) ::
      CycleMembers(side, version)[key].Req? <==> key in REQUIRED_KEYS
  {
    hide CycleMember, REQUIRED_KEYS, OPTIONAL_KEYS;
  }

  lemma CycleFollows(side: Side, version: nat)
    requires Known(side, version)
    ensures Follows(Nullable(Cycle(side, version)), Nullable(Cycle(side, Next(version))))
  {
    hide CycleMember, Follows, SameShape, REQUIRED_KEYS, OPTIONAL_KEYS;
    CycleShape(side, version, side, Next(version));
    forall key
      ensures Follows(CycleMember(key, side, version), CycleMember(key, side, Next(version)))
    {
      CycleMemberFollows(key, side, version, side, Next(version));
    }
    RecordFollows(Cycle(side, version), Cycle(side, Next(version)));
    ListFollows(0, Cycle(side, version), Cycle(side, Next(version)));
  }

  lemma StatusMemberFollows(key: Key, a: Side, version: nat, b: Side, later: nat, p: Profile)
    requires Leads(a, version, b, later) && (a == b || !key.cycle?)
    ensures Follows(StatusMember(key, a, version, p), StatusMember(key, b, later, p))
    ensures !key.cycle? ==> Plain(StatusMember(key, a, version, p), StatusMember(key, b, later, p))
  {
    hide Steady, Regular, Cycle, HeldPosition, NetworkOf, ProfileName, ExecutionState, SCHEDULER, PAUSED;
    if key.cycle? {
      CycleFollows(a, version);
    } else if key.schemaVersion? || key.profile? || key.network? {
    } else if key.executionState? {
      TextsFollow(a, b);
    } else {
      StatusLeafSteady(key, a, version, p);
      SteadyFollows(StatusMember(key, a, version, p));
    }
  }

  lemma StatusLeafSteady(key: Key, side: Side, version: nat, p: Profile)
    requires !key.cycle? && !key.schemaVersion? && !key.profile? && !key.network? && !key.executionState?
    ensures Steady(StatusMember(key, side, version, p))
  {
    hide Steady, Regular, Plain, Follows, Cycle, HeldPosition, NetworkOf, ProfileName, ExecutionState, SCHEDULER,
         PAUSED;
    LeavesHere();
    LeavesOfStatus();
    SchedulerSteady();
    HeldSteady(version == 4);
    if key.executionReason? || key.generatedAt? || key.nextCycleAt? {
    } else if key.countdownSeconds? || key.heldPositionCount? {
    } else {
    }
  }

  lemma StatusShape(a: Side, version: nat, b: Side, later: nat, p: Profile)
    requires Leads(a, version, b, later)
    ensures SameShape(Status(a, version, p), Status(b, later, p))
  {
    hide StatusMember, STATUS_KEYS;
    assert StatusKeys(version) == StatusKeys(later);
  }

  lemma StatusFollows(side: Side, version: nat, p: Profile)
    requires Known(side, version)
    ensures Follows(Status(side, version, p), Status(side, Next(version), p))
  {
    hide StatusMember, Follows, SameShape, StatusKeys;
    StatusShape(side, version, side, Next(version), p);
    forall key
      ensures Follows(StatusMember(key, side, version, p), StatusMember(key, side, Next(version), p))
    {
      StatusMemberFollows(key, side, version, side, Next(version), p);
    }
    RecordFollows(Status(side, version, p), Status(side, Next(version), p));
  }

  // ---------- what can have grown too long ----------

  predicate ShortCycle(c: Js) { c.Obj? ==> ShortCards(Get(c.fields, cards)) }

  /** The images of the current cycle print short enough to be read again. */
  predicate Renormalisable(h: Host, v: map<Key, Js>) {
    var c := Get(v, cycle);
    c.Obj? ==> ImagesPrintShort(h, Get(c.fields, cards))
  }

  lemma CardsListed(side: Side, version: nat)
    ensures cards in REQUIRED_KEYS && CycleMember(cards, side, version) == List(60, CardKind(version))
    ensures ShortCycle(Undefined) && ShortCycle(Null)
  {
  }

  lemma CardsFit(version: nat, list: Js)
    requires version >= 2
    ensures Fits(List(60, CardKind(version)), List(60, CardKind(Next(version))), list) <==> ShortCards(list)
  {
    hide ShortImage, ShortCards, Fits, CardMember;
    forall card: Js ensures Fits(CardKind(version), CardKind(Next(version)), card) <==> ShortImage(card) {
      CardRecordFits(CARD_KEYS, CardKind(version), CardKind(Next(version)), card);
    }
    CardListFits(60, CardKind(version), CardKind(Next(version)), list);
  }

  lemma CycleFits(side: Side, version: nat, c: Js)
    requires Known(side, version)
    ensures Fits(Nullable(Cycle(side, version)), Nullable(Cycle(side, Next(version))), c) <==> ShortCycle(c)
  {
    hide Plain, Fits, CycleMember, REQUIRED_KEYS, OPTIONAL_KEYS, ShortCards;
    NullableFits(Cycle(side, version), Cycle(side, Next(version)), c);
    if c.Obj? {
      CardsListed(side, version);
      CardsListed(side, Next(version));
      AbsentIsShort();
      forall key | key != cards
        ensures Plain(CycleMember(key, side, version), CycleMember(key, side, Next(version)))
      {
        CycleMemberFollows(key, side, version, side, Next(version));
      }
      FitsAt(Cycle(side, version), Cycle(side, Next(version)), c.fields, {cards});
      CardsFit(version, Get(c.fields, cards));
    } else {
      NonRecordFits(Cycle(side, version), Cycle(side, Next(version)), c);
    }
  }

  lemma CycleListed(side: Side, version: nat, p: Profile)
    ensures cycle in STATUS_KEYS && cycle in StatusKeys(version)
    ensures StatusMember(cycle, side, version, p) == Nullable(Cycle(side, version))
  {
  }

  lemma StatusFits(side: Side, version: nat, p: Profile, out: map<Key, Js>)
    requires Known(side, version)
    ensures Fits(Status(side, version, p), Status(side, Next(version), p), Obj(out))
      <==> ShortCycle(Get(out, cycle))
  {
    hide Plain, Fits, StatusMember, StatusKeys, ShortCycle, Cycle, AlwaysKeys, Get;
    CycleListed(side, version, p);
    CycleListed(side, Next(version), p);
    AbsentFits(out);
    forall key | key != cycle
      ensures Plain(StatusMember(key, side, version, p), StatusMember(key, side, Next(version), p))
    {
      StatusMemberFollows(key, side, version, side, Next(version), p);
    }
    FitsAt(Status(side, version, p), Status(side, Next(version), p), out, {cycle});
    CycleFits(side, version, Get(out, cycle));
  }

  lemma AbsentFits(out: map<Key, Js>)
    ensures if cycle in out then Get(out, cycle) == out[cycle] else ShortCycle(Get(out, cycle))
  {
  }

  // ---------- normalising twice ----------

  lemma CardsRead(h: Host, version: nat, list: Js)
    requires version >= 2 && Read(h, List(60, CardKind(version)), list).Some?
    ensures ShortCards(Read(h, List(60, CardKind(version)), list).value) <==> ImagesPrintShort(h, list)
  {
    hide Read, ShortImage, CardPrintsShort, ShortCards, ImagesPrintShort, CardMember;
    forall card: Js | Read(h, CardKind(version), card).Some?
      ensures ShortImage(Read(h, CardKind(version), card).value) <==> CardPrintsShort(h, card)
    {
      CardRecordRead(h, CARD_KEYS, CardKind(version), card);
    }
    CardListRead(h, 60, CardKind(version), list);
  }

  lemma CycleRead(h: Host, side: Side, version: nat, c: Js)
    requires Known(side, version) && Read(h, Nullable(Cycle(side, version)), c).Some?
    ensures ShortCycle(Read(h, Nullable(Cycle(side, version)), c).value)
      <==> (c.Obj? ==> ImagesPrintShort(h, Get(c.fields, cards)))
  {
    hide Accepts, Given, Passes, ReadItems, CycleMember, REQUIRED_KEYS, OPTIONAL_KEYS, ShortCards, ImagesPrintShort;
    CardsListed(side, version);
    AbsentIsShort();
    NullableRead(h, Cycle(side, version), c);
    if c.Obj? {
      MemberRead(h, Cycle(side, version), c.fields, cards);
      CardsRead(h, version, Get(c.fields, cards));
    }
  }

  lemma HeaderMembers(side: Side, version: nat, p: Profile)
    ensures schemaVersion in StatusKeys(version) && profile in StatusKeys(version)
    ensures StatusMember(schemaVersion, side, version, p) == Is(Emit(Num(version), Num(Next(version))))
    ensures StatusMember(profile, side, version, p) == Is(Emit(ProfileName(p), ProfileName(p)))
  {
  }

  lemma Header(h: Host, side: Side, version: nat, p: Profile, source: map<Key, Js>)
    requires Known(side, version) && Read(h, Status(side, version, p), Obj(source)).Some?
    ensures var out := Read(h, Status(side, version, p), Obj(source)).value;
      && out.Obj? && VersionOf(out.fields) == Next(version)
      && IsProfile(Get(out.fields, profile)) && ReadProfile(Get(out.fields, profile)) == p
      && (ShortCycle(Get(out.fields, cycle)) <==> Renormalisable(h, source))
  {
    hide Read, StatusMember, StatusKeys, ShortCycle, Cycle, ImagesPrintShort;
    HeaderMembers(side, version, p);
    MemberRead(h, Status(side, version, p), source, schemaVersion);
    MemberRead(h, Status(side, version, p), source, profile);
    EmitRead(h, Num(version), Num(Next(version)), Get(source, schemaVersion));
    EmitRead(h, ProfileName(p), ProfileName(p), Get(source, profile));
    NamesApart();
    CycleListed(side, version, p);
    MemberRead(h, Status(side, version, p), source, cycle);
    CycleRead(h, side, version, Get(source, cycle));
  }

  lemma NamesApart()
    ensures ProfileName(Testnet) != ProfileName(Mainnet)
  {
    assert "testnet"[0] != "mainnet"[0];
  }

  lemma StatusTwice(h: Host, side: Side, version: nat, p: Profile, source: map<Key, Js>)
    requires Sane(h) && Known(side, version) && Read(h, Status(side, version, p), Obj(source)).Some?
    ensures var out := Read(h, Status(side, version, p), Obj(source)).value;
      Read(h, Status(side, Next(version), p), out)
        == if Renormalisable(h, source) then Some(out) else None
  {
    hide Read, Status, Renormalisable, Follows, Fits;
    StatusFollows(side, version, p);
    ReadSettles(h, Status(side, version, p), Status(side, Next(version), p), Obj(source));
    Header(h, side, version, p, source);
    StatusFits(side, version, p, Read(h, Status(side, version, p), Obj(source)).value.fields);
  }

  // ---------- what an accepted record is ----------

  /** As many cards as opened boosters, up to sixty. */
  predicate WindowGuarantee(c: Js) {
    c.Obj? ==>
      var count, list := Get(c.fields, openedBoosters), Get(c.fields, cards);
      && count.Num? && list.Arr?
      && |list.items| <= 60 && (count.n <= 60 ==> |list.items| == count.n) && (count.n > 60 ==> |list.items| == 60)
  }

  /** The countdown and the reason of a pause are those that follow from the rest. */
  predicate DerivedGuarantee(h: Host, out: map<Key, Js>) {
    && Get(out, countdownSeconds)
      == Num(CountdownSeconds(TimeOf(h, Get(out, generatedAt)), TimeOf(h, Get(out, nextCycleAt))))
    && (Get(out, executionState) == Str("paused") ==> Get(out, executionReason) == Str("operator-paused"))
    && (Get(out, executionState) != Str("paused") ==> Get(out, executionReason) == Null)
  }

  /** At most one wake-up is scheduled. */
  predicate WakeupGuarantee(view: Js) {
    && view.Obj?
    && (Get(view.fields, nextCycleAt) == Null || Get(view.fields, nextReconcileAt) == Null)
  }

  lemma WindowGuaranteed(h: Host, side: Side, version: nat, raw: Js)
    requires Known(side, version) && Read(h, Nullable(Cycle(side, version)), raw).Some?
    ensures WindowGuarantee(Read(h, Nullable(Cycle(side, version)), raw).value)
  {
    hide Read, CycleMember, REQUIRED_KEYS, OPTIONAL_KEYS;
    var k := Cycle(side, version);
    NullableRead(h, k, raw);
    if raw != Null {
      SomeRead(h, k, raw);
      RecordRead(h, k, raw.fields);
      assert Passes(h, Window(openedBoosters, cards, 60), Read(h, k, raw).value.fields);
    }
  }

  lemma SchedulerGuaranteed(h: Host, raw: Js)
    requires Read(h, SCHEDULER, raw).Some?
    ensures WakeupGuarantee(Read(h, SCHEDULER, raw).value)
  {
    hide Read;
    SchedulerIsRecord(h, raw);
    RecordRead(h, SCHEDULER, raw.fields);
    assert Passes(h, OneWakeup, Read(h, SCHEDULER, raw).value.fields);
  }

  lemma DerivedGuaranteed(h: Host, out: map<Key, Js>)
    requires Passes(h, Countdown, out) && Passes(h, PausedReason, out)
    ensures DerivedGuarantee(h, out)
  {
  }

  lemma HeldGuaranteed(h: Host, out: map<Key, Js>)
    requires Passes(h, CountIs(heldPositionCount, heldPositions), out)
    ensures Get(out, heldPositions).Arr?
    ensures Get(out, heldPositionCount) == Num(|Get(out, heldPositions).items|)
  {
  }

  lemma SchedulerIsRecord(h: Host, raw: Js)
    requires Read(h, SCHEDULER, raw).Some?
    ensures SCHEDULER.Record? && raw.Obj?
  {
    hide Accepts, Given, Passes, ReadItems;
  }

  lemma NetworkListed(side: Side, version: nat, p: Profile)
    ensures network in StatusKeys(version)
    ensures StatusMember(network, side, version, p) == Is(Emit(NetworkOf(p), NetworkOf(p)))
    ensures version >= 6 ==> scheduler in StatusKeys(version) && StatusMember(scheduler, side, version, p) == SCHEDULER
  {
    hide NetworkOf, ProfileName, Cycle, SCHEDULER, HeldPosition, ExecutionState;
  }

  /** What can be relied on in a status of this version and profile. */
  predicate StatusGuarantee(h: Host, version: nat, p: Profile, out: map<Key, Js>) {
    && out.Keys == StatusKeys(version)
    && Get(out, profile) == ProfileName(p) && Get(out, network) == NetworkOf(p)
    && DerivedGuarantee(h, out)
    && WindowGuarantee(Get(out, cycle))
    && (version >= 4 ==>
          && Get(out, heldPositions).Arr?
          && Get(out, heldPositionCount) == Num(|Get(out, heldPositions).items|))
    && (version >= 6 ==> WakeupGuarantee(Get(out, scheduler)))
  }

  lemma ReadGuaranteed(h: Host, side: Side, version: nat, p: Profile, source: map<Key, Js>)
    requires Known(side, version) && Read(h, Status(side, version, p), Obj(source)).Some?
    ensures var out := Read(h, Status(side, version, p), Obj(source)).value;
      out.Obj? && StatusGuarantee(h, version, p, out.fields)
  {
    hide Read, StatusMember, StatusKeys, WindowGuarantee, WakeupGuarantee, DerivedGuarantee, Cycle, ProfileName,
         NetworkOf, Passes, SCHEDULER;
    var k := Status(side, version, p);
    RecordRead(h, k, source);
    var out := Read(h, k, Obj(source)).value.fields;
    HeaderMembers(side, version, p);
    NetworkListed(side, version, p);
    CycleListed(side, version, p);
    EmitRead(h, ProfileName(p), ProfileName(p), Get(source, profile));
    EmitRead(h, NetworkOf(p), NetworkOf(p), Get(source, network));
    WindowGuaranteed(h, side, version, Get(source, cycle));
    assert Countdown in k.checks && PausedReason in k.checks;
    DerivedGuaranteed(h, out);
    if version >= 4 {
      assert CountIs(heldPositionCount, heldPositions) in k.checks;
      HeldGuaranteed(h, out);
    }
    if version >= 6 {
      SchedulerGuaranteed(h, Get(source, scheduler));
    }
  }

  // ---------- version 1 ----------

  lemma IdleLeavesRead(h: Host, v: Js, p: Profile)
    requires Sane(h)
    ensures Reads(h, Is(Emit(Num(3), Num(3))), Num(3))
    ensures Reads(h, Is(Emit(ProfileName(p), ProfileName(p))), ProfileName(p))
    ensures Reads(h, Is(Emit(NetworkOf(p), NetworkOf(p))), NetworkOf(p))
    ensures Reads(h, ExecutionState(Web), Str("unknown")) && Reads(h, PAUSED, Null)
    ensures Accepts(h, Time, v) ==> Reads(h, Is(Time), v)
    ensures Accepts(h, Count, v) ==> Reads(h, COUNT, v)
    ensures forall k: Kind :: Reads(h, Nullable(k), Null)
  {
    hide ProfileName, NetworkOf;
    assert h.text(Str("unknown")) == "unknown";
  }

  lemma IdleMemberReads(h: Host, v: map<Key, Js>, p: Profile, key: Key)
    requires Sane(h) && IdleOk(h, v) && key in STATUS_KEYS
    ensures Reads(h, StatusMember(key, Web, 3, p), IdleMember(v, p, key))
  {
    hide Reads, ProfileName, NetworkOf, Cycle, STATUS_KEYS, SCHEDULER, HeldPosition, IDLE_KEYS, Sane, PAUSED,
         ExecutionState, Accepts, Passes;
    StatusKeysCovered(key);
    IdleLeavesRead(h, Get(v, key), p);
  }

  lemma StatusKeysCovered(key: Key)
    requires key in STATUS_KEYS
    ensures || key.schemaVersion? || key.profile? || key.network? || key.executionState? || key.executionReason?
            || key.generatedAt? || key.nextCycleAt? || key.countdownSeconds? || key.cycle?
  {
  }

  /** The idle record of version 1 becomes a version 3 record that the reader returns unchanged. */
  lemma IdleReads(h: Host, v: map<Key, Js>, p: Profile)
    requires Sane(h) && IdleOk(h, v)
    ensures Reads(h, Status(Web, 3, p), Obj(Idle(v, p)))
  {
    hide Reads, Read, StatusMember, IdleMember, STATUS_KEYS, Accepts, IDLE_KEYS;
    var out := Idle(v, p);
    forall key | key in STATUS_KEYS ensures Reads(h, StatusMember(key, Web, 3, p), out[key]) {
      IdleMemberReads(h, v, p, key);
    }
    IdleChecks(h, v, p);
    assert forall key | key in out :: Read(h, StatusMember(key, Web, 3, p), out[key]) == Some(out[key]) by {
      ReadsIsRead(h);
    }
    ReadRecord(h, Status(Web, 3, p), out);
    ReadsIsRead(h);
  }

  lemma IdleListed()
    ensures executionState in STATUS_KEYS && executionReason in STATUS_KEYS && generatedAt in STATUS_KEYS
    ensures nextCycleAt in STATUS_KEYS && countdownSeconds in STATUS_KEYS && cycle in STATUS_KEYS
    ensures schemaVersion in STATUS_KEYS && profile in STATUS_KEYS
  {
  }

  lemma IdleChecks(h: Host, v: map<Key, Js>, p: Profile)
    requires Passes(h, Countdown, v)
    ensures Passes(h, Countdown, Idle(v, p)) && Passes(h, PausedReason, Idle(v, p))
    ensures ShortCycle(Get(Idle(v, p), cycle)) && Get(Idle(v, p), cycle) == Null
    ensures VersionOf(Idle(v, p)) == 3 && Get(Idle(v, p), profile) == ProfileName(p)
  {
    hide STATUS_KEYS, ProfileName, NetworkOf;
    IdleListed();
    assert "unknown" != "paused" by { assert "unknown"[0] != "paused"[0]; }
  }

  // ---------- the main theorem ----------

  /**
    What a status reader accepts it accepts again and returns unchanged, versions 1 and 2 having
    become version 3, exactly when the images of the current cycle print within the text limit.
   */
  lemma FixedPoint(h: Host, side: Side, expected: Option<Profile>, v: Js)
    requires Sane(h) && Normalise(h, side, expected, v).Some?
    ensures var out := Normalise(h, side, expected, v).value;
      && out.Obj? && VersionOf(out.fields) == Next(VersionOf(v.fields))
      && Normalise(h, side, expected, out) == if Renormalisable(h, v.fields) then Some(out) else None
  {
    hide Read, Status, Renormalisable, IsProfile, ReadProfile, Idle, IdleOk;
    var version := VersionOf(v.fields);
    if side == Web && version == 1 {
      IdleReads(h, v.fields, expected.value);
      ReadsIsRead(h);
      IdleHeader(h, v.fields, expected.value);
    } else {
      var p := ReadProfile(Get(v.fields, profile));
      Header(h, side, version, p, v.fields);
      StatusTwice(h, side, version, p, v.fields);
    }
  }

  lemma IdleHeader(h: Host, v: map<Key, Js>, p: Profile)
    requires IdleOk(h, v)
    ensures VersionOf(Idle(v, p)) == 3 && Renormalisable(h, v)
    ensures IsProfile(Get(Idle(v, p), profile)) && ReadProfile(Get(Idle(v, p), profile)) == p
  {
    hide Idle, Passes, Accepts;
    IdleChecks(h, v, p);
    NamesApart();
  }

  /**
    In every status that either reader returns, whatever its version was: it is complete and names
    one profile throughout, the one asked for, countdown and pause reason follow from the rest, the
    cards are the window of the opened boosters, held positions are counted, and one wake-up at most
    is scheduled.
   */
  lemma Guaranteed(h: Host, side: Side, expected: Option<Profile>, v: Js)
    requires Sane(h) && Normalise(h, side, expected, v).Some?
    ensures var out := Normalise(h, side, expected, v).value;
      && out.Obj? && IsProfile(Get(out.fields, profile))
      && var p := ReadProfile(Get(out.fields, profile));
      && StatusGuarantee(h, Next(VersionOf(v.fields)), p, out.fields)
      && (expected.Some? ==> expected.value == p)
  {
    hide Read, Status, Renormalisable, IsProfile, ReadProfile, Idle, IdleOk, StatusGuarantee;
    var version := VersionOf(v.fields);
    if side == Web && version == 1 {
      IdleReads(h, v.fields, expected.value);
      ReadsIsRead(h);
      IdleHeader(h, v.fields, expected.value);
      ReadGuaranteed(h, Web, 3, expected.value, Idle(v.fields, expected.value));
    } else {
      var p := ReadProfile(Get(v.fields, profile));
      Header(h, side, version, p, v.fields);
      ReadGuaranteed(h, side, version, p, v.fields);
      SecondIsThird(h, p, Normalise(h, side, expected, v).value.fields);
    }
  }

  lemma SecondIsThird(h: Host, p: Profile, out: map<Key, Js>)
    ensures StatusGuarantee(h, 2, p, out) ==> StatusGuarantee(h, 3, p, out)
  {
    hide DerivedGuarantee, WindowGuarantee, WakeupGuarantee, NetworkOf, ProfileName, STATUS_KEYS;
  }

  // ---------- from the domain to the web ----------

  /** A status without accounting: no cycle, or one whose accounting is null. */
  predicate NoAccounting(w: map<Key, Js>) {
    var c := Get(w, cycle);
    c.Obj? ==> Get(c.fields, roundAccounting) == Null
  }

  lemma RoundListed(side: Side, version: nat)
    ensures roundAccounting in REQUIRED_KEYS
    ensures CycleMember(roundAccounting, side, version) == RoundAccounting(side, version)
  {
  }

  lemma NullRoundSettles(h: Host, version: nat)
    requires Known(Domain, version)
    ensures Settles(h, RoundAccounting(Domain, version), RoundAccounting(Web, 3), Null)
    ensures Fits(RoundAccounting(Domain, version), RoundAccounting(Web, 3), Null)
  {
    hide Settles, PackRound, TypedRound;
    if version == 2 {
      NullSettles(h, PackRound(MAYBE_MONEY), PackRound(MAYBE_MONEY));
    } else {
      NullSettles(h, TypedRound(AnyText), PackRound(MAYBE_MONEY));
    }
  }

  lemma CycleCrosses(h: Host, version: nat, source: map<Key, Js>)
    requires Sane(h) && Known(Domain, version) && Read(h, Cycle(Domain, version), Obj(source)).Some?
    requires var c := Read(h, Cycle(Domain, version), Obj(source)).value;
      c.Obj? ==> Get(c.fields, roundAccounting) == Null
    ensures Settles(h, Cycle(Domain, version), Cycle(Web, 3), Read(h, Cycle(Domain, version), Obj(source)).value)
  {
    hide Read, Settles, CycleMember, Follows, SameShape, REQUIRED_KEYS, OPTIONAL_KEYS, AlwaysKeys, Passes,
         RoundAccounting;
    var a, b := Cycle(Domain, version), Cycle(Web, 3);
    CycleShape(Domain, version, Web, 3);
    RecordRead(h, a, source);
    var out := Read(h, a, Obj(source)).value.fields;
    forall key | key in out ensures Settles(h, a.members[key].kind, b.members[key].kind, out[key]) {
      if key == roundAccounting {
        RoundListed(Domain, version);
        RoundListed(Web, 3);
        NullRoundSettles(h, version);
      } else {
        CycleMemberFollows(key, Domain, version, Web, 3);
        ReadSettles(h, a.members[key].kind, b.members[key].kind, Get(source, key));
      }
    }
    RecordAgain(h, a, b, out);
  }

  lemma CycleCrossFits(h: Host, version: nat, c: Js)
    requires Known(Domain, version) && (c.Obj? ==> Get(c.fields, roundAccounting) == Null)
    ensures Fits(Nullable(Cycle(Domain, version)), Nullable(Cycle(Web, 3)), c) <==> ShortCycle(c)
  {
    hide Plain, Fits, CycleMember, REQUIRED_KEYS, OPTIONAL_KEYS, ShortCards, RoundAccounting;
    NullableFits(Cycle(Domain, version), Cycle(Web, 3), c);
    if c.Obj? {
      CardsListed(Domain, version);
      CardsListed(Web, 3);
      RoundListed(Domain, version);
      RoundListed(Web, 3);
      NullRoundSettles(h, version);
      AbsentIsShort();
      forall key | key !in {cards, roundAccounting}
        ensures Plain(CycleMember(key, Domain, version), CycleMember(key, Web, 3))
      {
        CycleMemberFollows(key, Domain, version, Web, 3);
      }
      FitsAt(Cycle(Domain, version), Cycle(Web, 3), c.fields, {cards, roundAccounting});
      CardsFit(version, Get(c.fields, cards));
    } else {
      NonRecordFits(Cycle(Domain, version), Cycle(Web, 3), c);
    }
  }

  lemma TypedKeyApart()
    ensures payoutDustMicroUsdg in TYPED_KEYS && payoutDustMicroUsdg !in ROUND_KEYS
  {
  }

  lemma PackRejects(h: Host, out: map<Key, Js>)
    requires payoutDustMicroUsdg in out
    ensures Read(h, Nullable(PackRound(MAYBE_MONEY)), Obj(out)).None?
  {
    hide Accepts, Given, Passes, ReadItems, RoundKind, ROUND_KEYS;
    TypedKeyApart();
  }

  lemma TypedHas(h: Host, source: map<Key, Js>)
    requires Read(h, TypedRound(AnyText), Obj(source)).Some?
    ensures var r := Read(h, TypedRound(AnyText), Obj(source)).value; r.Obj? && payoutDustMicroUsdg in r.fields
  {
    hide Read, RoundKind, ROUND_KEYS, TYPED_KEYS;
    TypedKeyApart();
    MemberRead(h, TypedRound(AnyText), source, payoutDustMicroUsdg);
  }

  lemma PackLacks(h: Host, source: map<Key, Js>)
    requires Read(h, PackRound(MAYBE_MONEY), Obj(source)).Some?
    ensures var r := Read(h, PackRound(MAYBE_MONEY), Obj(source)).value; r.Obj? && payoutDustMicroUsdg !in r.fields
  {
    hide Read, RoundKind, ROUND_KEYS, TYPED_KEYS;
    TypedKeyApart();
    RecordRead(h, PackRound(MAYBE_MONEY), source);
  }

  lemma TypedRejects(h: Host, out: map<Key, Js>)
    requires payoutDustMicroUsdg !in out
    ensures Read(h, Nullable(TypedRound(AnyText)), Obj(out)).None?
  {
    hide Accepts, Given, Passes, ReadItems, RoundKind, ROUND_KEYS;
    TypedKeyApart();
    assert payoutDustMicroUsdg in AlwaysKeys(TypedRound(AnyText).members);
  }

  /**
    The two accountings of version 3 share no record: the domain's has seven members more, which
    the web reader does not know and the domain's does not do without.
   */
  lemma TypedIsNoPackRound(h: Host, raw: Js)
    ensures var typed := Read(h, Nullable(TypedRound(AnyText)), raw);
      typed.Some? && typed.value != Null ==> Read(h, Nullable(PackRound(MAYBE_MONEY)), typed.value).None?
    ensures var pack := Read(h, Nullable(PackRound(MAYBE_MONEY)), raw);
      pack.Some? && pack.value != Null ==> Read(h, Nullable(TypedRound(AnyText)), pack.value).None?
  {
    hide Read, PackRound, TypedRound;
    IsTypedRound();
    var typed, pack := Read(h, Nullable(TypedRound(AnyText)), raw), Read(h, Nullable(PackRound(MAYBE_MONEY)), raw);
    if typed.Some? && typed.value != Null {
      NullableRead(h, TypedRound(AnyText), raw);
      SomeRead(h, TypedRound(AnyText), raw);
      TypedHas(h, raw.fields);
      PackRejects(h, typed.value.fields);
    }
    if pack.Some? && pack.value != Null {
      NullableRead(h, PackRound(MAYBE_MONEY), raw);
      SomeRead(h, PackRound(MAYBE_MONEY), raw);
      PackLacks(h, raw.fields);
      TypedRejects(h, pack.value.fields);
    }
  }

  lemma IsTypedRound()
    ensures TypedRound(AnyText).Record? && PackRound(MAYBE_MONEY).Record?
  {
  }

  lemma AccountingRejected(h: Host, version: nat, source: Js)
    requires Known(Domain, version) && Read(h, Nullable(Cycle(Domain, version)), source).Some?
    requires var c := Read(h, Nullable(Cycle(Domain, version)), source).value;
      c.Obj? && Get(c.fields, roundAccounting) != Null
    ensures Read(h, Nullable(Cycle(Web, 3)), Read(h, Nullable(Cycle(Domain, version)), source).value).None?
  {
    hide Accepts, Given, Passes, ReadItems, CycleMember, REQUIRED_KEYS, OPTIONAL_KEYS, PackRound, TypedRound;
    RoundListed(Domain, version);
    RoundListed(Web, 3);
    NullableRead(h, Cycle(Domain, version), source);
    MemberRead(h, Cycle(Domain, version), source.fields, roundAccounting);
    var c := Read(h, Nullable(Cycle(Domain, version)), source).value.fields;
    RoundRejected(h, version, Get(source.fields, roundAccounting));
    ReadRecordNone(h, Cycle(Web, 3), c, roundAccounting);
  }

  lemma RoundRejected(h: Host, version: nat, raw: Js)
    requires Known(Domain, version) && Read(h, RoundAccounting(Domain, version), raw).Some?
    requires Read(h, RoundAccounting(Domain, version), raw) != Some(Null)
    ensures Read(h, RoundAccounting(Web, 3), Read(h, RoundAccounting(Domain, version), raw).value).None?
  {
    hide Read, PackRound, TypedRound;
    if version == 2 {
      LeafReads(h, AlwaysNull, raw);
      assert false;
    } else {
      TypedIsNoPackRound(h, raw);
    }
  }

  lemma MemberCrosses(h: Host, version: nat, p: Profile, source: map<Key, Js>, key: Key)
    requires Sane(h) && Known(Domain, version) && Read(h, Status(Domain, version, p), Obj(source)).Some?
    requires var out := Read(h, Status(Domain, version, p), Obj(source)).value;
      out.Obj? && NoAccounting(out.fields) && key in out.fields
      && Read(h, StatusMember(key, Domain, version, p), Get(source, key)) == Some(out.fields[key])
    ensures var out := Read(h, Status(Domain, version, p), Obj(source)).value.fields;
      Settles(h, StatusMember(key, Domain, version, p), StatusMember(key, Web, 3, p), out[key])
  {
    hide Read, Settles, StatusMember, Status, Cycle, Follows;
    var out := Read(h, Status(Domain, version, p), Obj(source)).value.fields;
    if key == cycle {
      CycleListed(Domain, version, p);
      CycleListed(Web, 3, p);
      NullSettles(h, Cycle(Domain, version), Cycle(Web, 3));
      IsCycle(version);
      NullableRead(h, Cycle(Domain, version), Get(source, cycle));
      if out[cycle] != Null {
        SomeRead(h, Cycle(Domain, version), Get(source, cycle));
        CycleCrosses(h, version, Get(source, cycle).fields);
        SomeSettles(h, Cycle(Domain, version), Cycle(Web, 3), out[cycle]);
      }
    } else {
      StatusMemberFollows(key, Domain, version, Web, 3, p);
      ReadSettles(h, StatusMember(key, Domain, version, p), StatusMember(key, Web, 3, p), Get(source, key));
    }
  }

  lemma IsCycle(version: nat)
    ensures Cycle(Domain, version).Record? && Cycle(Web, 3).Record?
  {
  }

  lemma StatusCrossFits(h: Host, version: nat, p: Profile, out: map<Key, Js>)
    requires Known(Domain, version) && NoAccounting(out)
    ensures Fits(Status(Domain, version, p), Status(Web, 3, p), Obj(out)) <==> ShortCycle(Get(out, cycle))
  {
    hide Plain, Fits, StatusMember, StatusKeys, ShortCycle, Cycle;
    CycleListed(Domain, version, p);
    CycleListed(Web, 3, p);
    CardsListed(Domain, version);
    forall key | key != cycle
      ensures Plain(StatusMember(key, Domain, version, p), StatusMember(key, Web, 3, p))
    {
      StatusMemberFollows(key, Domain, version, Web, 3, p);
    }
    FitsAt(Status(Domain, version, p), Status(Web, 3, p), out, {cycle});
    CycleCrossFits(h, version, Get(out, cycle));
  }

  lemma StatusSettles(h: Host, version: nat, p: Profile, source: map<Key, Js>)
    requires Sane(h) && Known(Domain, version) && Read(h, Status(Domain, version, p), Obj(source)).Some?
    requires var out := Read(h, Status(Domain, version, p), Obj(source)).value;
      out.Obj? && NoAccounting(out.fields)
    ensures Settles(h, Status(Domain, version, p), Status(Web, 3, p),
                    Read(h, Status(Domain, version, p), Obj(source)).value)
  {
    hide Read, Settles, StatusMember, StatusKeys, AlwaysKeys, Passes, Cycle, NoAccounting;
    var a, b := Status(Domain, version, p), Status(Web, 3, p);
    RecordRead(h, a, source);
    var out := Read(h, a, Obj(source)).value.fields;
    StatusShape(Domain, version, Web, 3, p);
    forall key | key in out ensures Settles(h, a.members[key].kind, b.members[key].kind, out[key]) {
      MemberCrosses(h, version, p, source, key);
    }
    RecordAgain(h, a, b, out);
  }

  lemma StatusCrosses(h: Host, version: nat, p: Profile, source: map<Key, Js>)
    requires Sane(h) && Known(Domain, version) && Read(h, Status(Domain, version, p), Obj(source)).Some?
    ensures var out := Read(h, Status(Domain, version, p), Obj(source)).value;
      && out.Obj?
      && Read(h, Status(Web, 3, p), out)
        == if NoAccounting(out.fields) && ShortCycle(Get(out.fields, cycle)) then Some(out) else None
  {
    hide Read, Settles, StatusMember, StatusKeys, Cycle, Fits, ShortCycle;
    var a, b := Status(Domain, version, p), Status(Web, 3, p);
    CycleListed(Domain, version, p);
    CycleListed(Web, 3, p);
    MemberRead(h, a, source, cycle);
    var out := Read(h, a, Obj(source)).value.fields;
    if NoAccounting(out) {
      StatusSettles(h, version, p, source);
      StatusCrossFits(h, version, p, out);
      SettlesMeans(h, a, b, Obj(out));
    } else {
      AccountingRejected(h, version, Get(source, cycle));
      ReadRecordNone(h, b, out, cycle);
    }
  }

  lemma SettlesMeans(h: Host, a: Kind, b: Kind, w: Js)
    requires Settles(h, a, b, w)
    ensures Read(h, b, w) == if Fits(a, b, w) then Some(w) else None
  {
  }

  /**
    The web reader takes a status from the domain's normaliser, and returns it unchanged, exactly
    when it carries no accounting and its images print short: the two call different records
    version 3.
   */
  lemma DomainToWeb(h: Host, v: Js)
    requires Sane(h) && Normalise(h, Domain, None, v).Some?
    ensures var w := Normalise(h, Domain, None, v).value;
      && w.Obj?
      && Normalise(h, Web, None, w)
        == if NoAccounting(w.fields) && Renormalisable(h, v.fields) then Some(w) else None
  {
    hide Read, Status, NoAccounting, IsProfile, ReadProfile, Renormalisable;
    var p := ReadProfile(Get(v.fields, profile));
    Header(h, Domain, VersionOf(v.fields), p, v.fields);
    StatusCrosses(h, VersionOf(v.fields), p, v.fields);
  }
}

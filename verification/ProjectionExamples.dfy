/** The least record with accounting: the projector returns a status for it that the web rejects. */
module ProjectionExamples {
  import opened CycleProjection
  import opened CycleStatus
  import opened Decimal
  import opened LegacyRound
  import opened PublicCards
  import opened Renormalise
  import opened Schema
  import opened Tables
  import opened Wrappers

  function BareRecord(): Js {
    Obj(map[cycleId := Str("c"), status := Str("s"), roundAccounting := Obj(map[])])
  }

  lemma BareDots(key: Key)
    ensures Dot(BareRecord(), cycleId) == Str("c") && Dot(BareRecord(), status) == Str("s")
    ensures Dot(BareRecord(), roundAccounting) == Obj(map[]) && Dot(Obj(map[]), key) == Undefined
    ensures !key.cycleId? && !key.status? && !key.roundAccounting? ==> Dot(BareRecord(), key) == Undefined
    ensures Dot(Undefined, key) == Undefined
  {
  }

  /** A record is assembled if every member is there. */
  lemma Assembled(keys: set<Key>, member: Key -> Option<Js>, out: map<Key, Js>)
    requires out.Keys == keys && forall key | key in keys :: member(key) == Some(out[key])
    ensures Assemble(keys, member) == Some(Obj(out))
  {
    var built := map key | key in keys :: Unwrap(member(key));
    assert built == out;
  }

  // ---------- its round ----------

  lemma NothingKnown(ledger: Js, key: Key)
    requires ledger == Undefined
    ensures CostMember(ledger, key) == Some(Null) && FeesMember(ledger, key) == Some(Null)
  {
  }

  lemma BareCosts()
    ensures Assemble(QUOTED_COSTS.allowed, k => CostMember(Undefined, k)) == Some(NullAmounts(QUOTED_COSTS.allowed))
    ensures Assemble(NETWORK_FEES.allowed, k => FeesMember(Undefined, k)) == Some(NullAmounts(NETWORK_FEES.allowed))
  {
    hide CostMember, FeesMember, QUOTED_COSTS, NETWORK_FEES;
    forall k ensures CostMember(Undefined, k) == Some(Null) && FeesMember(Undefined, k) == Some(Null) {
      NothingKnown(Undefined, k);
    }
    CostsAreRecords();
    Assembled(QUOTED_COSTS.allowed, k => CostMember(Undefined, k), NullAmounts(QUOTED_COSTS.allowed).fields);
    Assembled(NETWORK_FEES.allowed, k => FeesMember(Undefined, k), NullAmounts(NETWORK_FEES.allowed).fields);
  }

  lemma CostsAreRecords()
    ensures QUOTED_COSTS.Record? && NETWORK_FEES.Record?
  {
  }

  function BareRoundMember(key: Key): Js {
    if key.quotedCosts? then NullAmounts(QUOTED_COSTS.allowed)
    else if key.networkFees? then NullAmounts(NETWORK_FEES.allowed)
    else if key.holderRewardsStatus? || key.distributionStatus? then PENDING
    else Null
  }

  lemma NothingElse()
    ensures Dot(BareRecord(), roundAccounting) == Obj(map[])
    ensures forall key: Key ::
      !key.cycleId? && !key.status? && !key.roundAccounting? ==> Dot(BareRecord(), key) == Undefined
    ensures forall key: Key :: Dot(Undefined, key) == Undefined
    ensures forall key: Key :: Dot(Obj(map[]), key) == Undefined
  {
    hide Dot, BareRecord;
    forall key: Key
      ensures !key.cycleId? && !key.status? && !key.roundAccounting? ==> Dot(BareRecord(), key) == Undefined
      ensures Dot(Undefined, key) == Undefined && Dot(Obj(map[]), key) == Undefined
    {
      BareDots(key);
    }
    BareDots(roundAccounting);
  }

  predicate IsBlock(key: Key) { key.quotedCosts? || key.networkFees? }

  predicate IsStatus(key: Key) { key.holderRewardsStatus? || key.distributionStatus? }

  lemma BareBlocks(key: Key)
    requires IsBlock(key)
    ensures RoundMember(BareRecord(), key) == Some(BareRoundMember(key))
  {
    hide Dot, Assemble, CostMember, FeesMember, BareRecord, QUOTED_COSTS, NETWORK_FEES, NullAmounts, OptionalAny,
         OptionalSigned, RequiredBoundedText, Coalesce, HolderStatus, PENDING;
    BareCosts();
    NothingElse();
  }

  lemma BareStatuses(key: Key)
    requires IsStatus(key)
    ensures RoundMember(BareRecord(), key) == Some(BareRoundMember(key))
  {
    hide Dot, Assemble, CostMember, FeesMember, BareRecord, QUOTED_COSTS, NETWORK_FEES, NullAmounts, OptionalAny,
         OptionalSigned, RequiredBoundedText, Coalesce, HolderStatus, PENDING;
    NothingElse();
    UnknownFigures();
  }

  lemma BareAmounts(key: Key)
    requires !IsBlock(key) && !IsStatus(key)
    ensures RoundMember(BareRecord(), key) == Some(BareRoundMember(key))
  {
    hide Dot, Assemble, CostMember, FeesMember, BareRecord, QUOTED_COSTS, NETWORK_FEES, NullAmounts, OptionalAny,
         OptionalSigned, RequiredBoundedText, Coalesce, HolderStatus, PENDING;
    NothingElse();
    UnknownFigures();
  }

  lemma BareRoundMembers(key: Key)
    ensures RoundMember(BareRecord(), key) == Some(BareRoundMember(key))
  {
    hide RoundMember, BareRoundMember, BareRecord, IsBlock, IsStatus;
    if IsBlock(key) {
      BareBlocks(key);
    } else if IsStatus(key) {
      BareStatuses(key);
    } else {
      BareAmounts(key);
    }
  }

  lemma UnknownFigures()
    ensures OptionalAny(Undefined) == Some(Null) && OptionalSigned(Undefined) == Some(Null)
    ensures Coalesce(Undefined, Undefined) == Undefined && Coalesce(Undefined, PENDING) == PENDING
    ensures HolderStatus(Undefined) == PENDING && RequiredBoundedText(PENDING) == Some(PENDING)
  {
  }

  lemma BareRoundMemberReads(h: Host, key: Key)
    ensures Reads(h, RoundKind(key, MAYBE_MONEY, MAYBE_MONEY, AnyText), BareRoundMember(key))
  {
    hide Read, Reads, NullAmounts, QUOTED_COSTS, NETWORK_FEES, MAYBE_MONEY, TEXT, AmountKind;
    LeavesRead(h, Null);
    NullsRead(h);
    MoreLeaves(h);
  }

  lemma MoreLeaves(h: Host)
    ensures Reads(h, Nullable(AmountKind(AnyText)), Null) && Reads(h, TEXT, PENDING)
  {
    hide AmountKind;
  }

  function BareRound(): map<Key, Js> { map key | key in ROUND_KEYS + TYPED_KEYS :: BareRoundMember(key) }

  lemma BareRoundProjected()
    ensures ProjectRound(BareRecord()) == Some(Obj(BareRound()))
  {
    hide RoundMember, ROUND_KEYS, TYPED_KEYS, BareRoundMember, BareRecord, Dot;
    BareDots(roundAccounting);
    forall key ensures RoundMember(BareRecord(), key) == Some(BareRoundMember(key)) {
      BareRoundMembers(key);
    }
    Assembled(ROUND_KEYS + TYPED_KEYS, key => RoundMember(BareRecord(), key), BareRound());
  }

  lemma BareRoundListed()
    ensures forall key | key in {packGainMicroUsdg, packLossMicroUsdg, cycleGainMicroUsdg, cycleLossMicroUsdg} ::
      key in ROUND_KEYS && BareRoundMember(key) == Null
  {
  }

  lemma BareRoundReads(h: Host)
    ensures Reads(h, TypedRound(AnyText), Obj(BareRound()))
  {
    hide Reads, RoundKind, BareRoundMember, ROUND_KEYS, TYPED_KEYS;
    forall key ensures Reads(h, RoundKind(key, MAYBE_MONEY, MAYBE_MONEY, AnyText), BareRoundMember(key)) {
      BareRoundMemberReads(h, key);
    }
    BareRoundListed();
    RecordReads(h, TypedRound(AnyText), BareRound());
  }

  // ---------- its cycle ----------

  function BareMember(key: Key): Js {
    if key.cycleId? then Str("c")
    else if key.status? then Str("s")
    else if key.plannedBoosters? || key.openedBoosters? then Num(0)
    else if key.actions? || key.cards? then Arr([])
    else if key.roundAccounting? then Obj(BareRound())
    else Null
  }

  function BareCycle(): map<Key, Js> { map key | key in REQUIRED_KEYS :: BareMember(key) }

  lemma BareActions(e: Env)
    ensures ProjectActions(e.clock, e.compare, BareRecord()) == Some(Arr([]))
  {
    hide Dot, BareRecord;
    BareDots(timeline);
  }

  lemma BarePacks()
    ensures Packs(BareRecord()) == [] && LastPacks(BareRecord()) == []
  {
    hide Dot, BareRecord;
    BareDots(packs);
  }

  lemma BareCards(e: Env)
    ensures ProjectCards(e.host, e.https, BareRecord()) == Some(Arr([]))
  {
    hide Packs, LastPacks, BareRecord, ProjectCard, AllOf;
    BarePacks();
    NoItems(LastPacks(BareRecord()), card => ProjectCard(e.host, e.https, BareRecord(), card));
  }

  lemma NoItems(items: seq<Js>, item: Js -> Option<Js>)
    requires items == []
    ensures AllOf(items, item) == Some([])
  {
    if AllOf(items, item).Some? {
      assert |AllOf(items, item).value| == 0;
    }
  }

  lemma BarePlan()
    ensures Planned(BareRecord()) == Some(0)
  {
    hide Dot, BareRecord;
    BareDots(packPlan);
    BareDots(orders);
  }

  lemma Covered(key: Key)
    requires key in REQUIRED_KEYS
    ensures || key.cycleId? || key.status? || key.selectedPackId? || key.maxBoostersPerCycle? || key.plannedBoosters?
            || key.openedBoosters? || key.actions? || key.cards? || key.returnedMicroUsdg? || key.rewardStatus?
            || key.roundAccounting?
  {
  }

  lemma BareMembers(e: Env, key: Key)
    requires key in REQUIRED_KEYS
    ensures ProjectMember(e, BareRecord(), key) == Some(BareMember(key))
  {
    hide Dot, BareRecord, ProjectActions, ProjectCards, Planned, Packs, ProjectRound, REQUIRED_KEYS, BareRound;
    Covered(key);
    BareActions(e);
    BarePacks();
    BareCards(e);
    BarePlan();
    BareRoundProjected();
    BareDots(packPlan);
    BareDots(selectedPackId);
    BareDots(maxBoostersPerCycle);
    BareDots(inbound);
    BareDots(amountReceived);
    BareDots(settlement);
    BareDots(status);
  }

  lemma NothingOptional(key: Key)
    requires key in OPTIONAL_KEYS
    ensures !Present(BareRecord(), key)
  {
  }

  lemma BareProjected(e: Env)
    ensures ProjectRecord(e, BareRecord()) == Some(Obj(BareCycle()))
  {
    hide Dot, BareRecord, ProjectMember, BareMember, REQUIRED_KEYS, OPTIONAL_KEYS, Present;
    BareDots(cycleId);
    forall key | key in OPTIONAL_KEYS ensures !Present(BareRecord(), key) {
      NothingOptional(key);
    }
    assert ProjectedKeys(BareRecord()) == REQUIRED_KEYS;
    forall key | key in REQUIRED_KEYS ensures ProjectMember(e, BareRecord(), key) == Some(BareMember(key)) {
      BareMembers(e, key);
    }
    IsObject();
    Assembled(REQUIRED_KEYS, key => ProjectMember(e, BareRecord(), key), BareCycle());
  }

  lemma IsObject()
    ensures BareRecord().Obj?
  {
  }

  lemma BareLeaves(h: Host)
    ensures Reads(h, TEXT, Str("c")) && Reads(h, TEXT, Str("s")) && Reads(h, NULL_TEXT, Null)
    ensures Reads(h, COUNT, Num(0)) && Reads(h, Nullable(Is(Positive)), Null) && Reads(h, Nullable(MONEY), Null)
    ensures Reads(h, List(128, Action(Domain)), Arr([])) && Reads(h, List(60, CardKind(3)), Arr([]))
  {
    hide Action, CardKind;
  }

  lemma BareMemberReads(h: Host, key: Key)
    requires key in REQUIRED_KEYS
    ensures Reads(h, CycleMember(key, Domain, 3), BareMember(key))
  {
    hide Reads, Read, Action, CardKind, TypedRound, PackRound, BareRound, REQUIRED_KEYS, TEXT, NULL_TEXT, COUNT, MONEY;
    Covered(key);
    BareLeaves(h);
    BareRoundReads(h);
    SomeReads(h, TypedRound(AnyText), Obj(BareRound()));
  }

  lemma SomeReads(h: Host, k: Kind, v: Js)
    requires Reads(h, k, v) && v != Null
    ensures Reads(h, Nullable(k), v)
  {
  }

  lemma BareListed()
    ensures openedBoosters in REQUIRED_KEYS && cards in REQUIRED_KEYS
    ensures BareMember(openedBoosters) == Num(0) && BareMember(cards) == Arr([])
  {
  }

  lemma BareCycleReads(h: Host)
    ensures Reads(h, Nullable(Cycle(Domain, 3)), Obj(BareCycle()))
  {
    hide Reads, CycleMember, BareMember, REQUIRED_KEYS, OPTIONAL_KEYS, CycleMembers, AlwaysKeys;
    MembersShape(Domain, 3);
    forall key | key in REQUIRED_KEYS ensures Reads(h, CycleMember(key, Domain, 3), BareMember(key)) {
      BareMemberReads(h, key);
    }
    BareKinds();
    BareListed();
    RecordReads(h, Cycle(Domain, 3), BareCycle());
    SomeReads(h, Cycle(Domain, 3), Obj(BareCycle()));
  }

  lemma BareKinds()
    ensures forall key | key in REQUIRED_KEYS ::
      key in CycleMembers(Domain, 3) && CycleMembers(Domain, 3)[key].kind == CycleMember(key, Domain, 3)
  {
    hide CycleMember, REQUIRED_KEYS, OPTIONAL_KEYS;
  }

  // ---------- the status ----------

  lemma FigureLeaves(e: Env, now: int, next: int, p: Profile, state: string)
    requires Keeps(e.clock, e.host) && IsTime(now) && IsTime(next) && IsState(state)
    ensures Reads(e.host, Is(Emit(Num(3), Num(3))), Num(3))
    ensures Reads(e.host, ExecutionState(Domain), Str(state))
    ensures Reads(e.host, PAUSED, if state == "paused" then Str("operator-paused") else Null)
    ensures Reads(e.host, Is(Time), Str(e.clock.iso(now))) && Reads(e.host, Is(Time), Str(e.clock.iso(next)))
    ensures Reads(e.host, COUNT, Num(CountdownSeconds(now, next)))
  {
  }

  lemma HeaderLeaves(h: Host, p: Profile)
    ensures Reads(h, Is(Emit(ProfileName(p), ProfileName(p))), ProfileName(p))
    ensures Reads(h, Is(Emit(NetworkOf(p), NetworkOf(p))), NetworkOf(p))
  {
    hide ProfileName, NetworkOf;
  }

  lemma FigureReads(e: Env, now: int, next: int, p: Profile, state: string, projected: Js, key: Key)
    requires Keeps(e.clock, e.host) && IsTime(now) && IsTime(next) && IsState(state) && key in STATUS_KEYS
    requires Reads(e.host, Nullable(Cycle(Domain, 3)), projected)
    ensures Reads(e.host, StatusMember(key, Domain, 3, p), StatusFigure(e.clock, now, next, p, state, projected, key))
  {
    hide Reads, Read, Cycle, STATUS_KEYS, ExecutionState, PAUSED, COUNT, ProfileName, NetworkOf, SCHEDULER,
      HeldPosition, CountdownSeconds, Keeps;
    StatusKeysCovered(key);
    FigureLeaves(e, now, next, p, state);
    HeaderLeaves(e.host, p);
  }

  lemma StatusReads(e: Env, now: int, next: int, p: Profile, state: string, projected: Js)
    requires Keeps(e.clock, e.host) && IsTime(now) && IsTime(next) && IsState(state)
    requires Reads(e.host, Nullable(Cycle(Domain, 3)), projected)
    ensures Reads(e.host, Status(Domain, 3, p), Obj(StatusOf(e.clock, now, next, p, state, projected)))
  {
    hide Reads, StatusMember, StatusFigure, STATUS_KEYS, Cycle, Passes, Keeps, IsTime, IsState;
    var s := StatusOf(e.clock, now, next, p, state, projected);
    assert StatusKeys(3) == STATUS_KEYS;
    forall key | key in STATUS_KEYS ensures Reads(e.host, StatusMember(key, Domain, 3, p), s[key]) {
      FigureReads(e, now, next, p, state, projected, key);
    }
    CountdownPasses(e, now, next, p, state, projected);
    RecordReads(e.host, Status(Domain, 3, p), s);
  }

  /** The record with accounting is projected, on every host, at every time, in both profiles and states. */
  lemma AccountingIsProjected(e: Env, now: int, next: int, p: Profile, state: string)
    requires Keeps(e.clock, e.host) && IsTime(now) && IsTime(next) && IsState(state)
    ensures ProjectPublicCycle(e, now, next, BareRecord(), p, state)
      == Some(Obj(StatusOf(e.clock, now, next, p, state, Obj(BareCycle()))))
  {
    hide Read, Status, StatusOf, Normalise, ProjectRecord, IsTime, IsState, ProfileName, BareCycle, Keeps, VersionOf;
    BareProjected(e);
    BareCycleReads(e.host);
    var s := StatusOf(e.clock, now, next, p, state, Obj(BareCycle()));
    StatusReads(e, now, next, p, state, Obj(BareCycle()));
    StatusFigures(e.clock, now, next, p, state, Obj(BareCycle()));
    NormaliseCurrent(e.host, s, p);
    ReadsIsRead(e.host);
  }

  /**
    So the web reader rejects a projection that the projector returned, and a status that the
    domain's own normaliser returned: the same one.
   */
  lemma AccountingIsRejected(e: Env, now: int, next: int, p: Profile, state: string)
    requires Sane(e.host) && Keeps(e.clock, e.host) && IsTime(now) && IsTime(next) && IsState(state)
    ensures var w := ProjectPublicCycle(e, now, next, BareRecord(), p, state);
      && w.Some?
      && Normalise(e.host, Domain, None, w.value) == w
      && Normalise(e.host, Web, None, w.value) == None
  {
    hide Normalise, ProjectPublicCycle, StatusOf, CycleOf;
    AccountingIsProjected(e, now, next, p, state);
    ProjectionIsNormal(e, now, next, BareRecord(), p, state);
    WebReadsProjection(e, now, next, BareRecord(), p, state);
    BareDots(roundAccounting);
  }

  // ---------- a host as assumed ----------

  function PrintTime(ms: int): string { if ms >= 0 then Print(ms) else "-" + Print(0 - ms) }

  function ParseTime(s: string): Option<int> {
    if |s| > 1 && s[0] == '-' && Digits(s[1..]) then Some(0 - Value(s[1..]))
    else if Digits(s) then Some(Value(s))
    else None
  }

  lemma TimeBack(ms: int)
    ensures ParseTime(PrintTime(ms)) == Some(ms)
    ensures IsDate(ms) ==> 1 <= |PrintTime(ms)| <= MAX_TEXT
  {
    hide Print, Value, Pow10;
    var n := if ms >= 0 then ms else -ms;
    ValueOfPrint(n);
    if ms < 0 {
      assert PrintTime(ms)[0] == '-' && PrintTime(ms)[1..] == Print(n);
    } else {
      assert IsDigit(Print(n)[0]);
    }
    DigitCount(n, 17);
    SeventeenDigits();
  }

  lemma SeventeenDigits()
    ensures Pow10(17) > LAST_DATE
  {
    assert Pow10(4) == 10000;
    PowStep(4);
    PowStep(5);
    PowStep(6);
    PowStep(7);
    Pow10Add(8, 8);
    PowStep(16);
  }

  lemma {:induction false} Pow10Add(m: nat, n: nat)
    ensures Pow10(m + n) == Pow10(m) * Pow10(n)
  {
    if n > 0 {
      Pow10Add(m, n - 1);
    }
  }

  function PlainEnv(): Env {
    Env(
      Host(_ => None, s => ParseTime(s), (v: Js) => if v.Str? then v.s else ""),
      Clock(ms => PrintTime(ms), (v: Js) => if v.Num? && IsDate(v.n) then Some(v.n) else None),
      (_, _) => 0, _ => true)
  }

  lemma PlainHost()
    ensures Sane(PlainEnv().host) && Keeps(PlainEnv().clock, PlainEnv().host)
  {
    hide PrintTime, ParseTime;
    forall ms ensures ParseTime(PrintTime(ms)) == Some(ms) && (IsDate(ms) ==> 1 <= |PrintTime(ms)| <= MAX_TEXT) {
      TimeBack(ms);
    }
  }

  lemma AccountingHappens()
    ensures exists e: Env, now: int, next: int, record: Js, p: Profile, state: string ::
      && Sane(e.host) && Accounted(record)
      && ProjectPublicCycle(e, now, next, record, p, state).Some?
      && Normalise(e.host, Web, None, ProjectPublicCycle(e, now, next, record, p, state).value) == None
  {
    hide Normalise, ProjectPublicCycle, Sane, Keeps, PlainEnv;
    PlainHost();
    AccountingIsRejected(PlainEnv(), 0, 0, Testnet, "active");
    BareDots(roundAccounting);
  }
}

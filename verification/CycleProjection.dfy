/**
  The projector that turns a runner's record into the public cycle status.  It builds a version 3
  status and passes it through the domain's own normaliser.
 */
module CycleProjection {
  import opened Collating
  import opened CycleStatus
  import opened Decimal
  import opened PublicCards
  import opened Renormalise
  import opened Schema
  import opened Tables
  import opened Wrappers

  /** `toISOString`, and the milliseconds of `new Date(value)` where it is a date. */
  datatype Clock = Clock(iso: int -> string, date: Js -> Option<int>)

  const LAST_DATE := 8640000000000000

  predicate IsDate(ms: int) { -LAST_DATE <= ms <= LAST_DATE }

  /** Printed dates are read back as what they were. */
  ghost predicate Keeps(c: Clock, h: Host) {
    && (forall ms :: IsDate(ms) ==> h.time(c.iso(ms)) == Some(ms) && 1 <= |c.iso(ms)| <= MAX_TEXT)
    && (forall v :: c.date(v).Some? ==> IsDate(c.date(v).value))
  }

  // ---------- reading the record ----------

  /** Optional chaining: a member of anything but an object is undefined. */
  function Dot(v: Js, key: Key): Js { if v.Obj? then Get(v.fields, key) else Undefined }

  function Coalesce(a: Js, b: Js): Js { if a == Undefined || a == Null then b else a }

  predicate NonEmptyText(v: Js) { v.Str? && v.s != "" }

  function RequiredBoundedText(v: Js): Option<Js> {
    if NonEmptyText(v) && |v.s| <= MAX_TEXT then Some(v) else None
  }

  function OptionalText(v: Js): Option<Js> { if v == Undefined then Some(Null) else RequiredBoundedText(v) }

  function NullableText(v: Js): Option<Js> {
    if v == Undefined || v == Null then Some(Null) else RequiredBoundedText(v)
  }

  function OptionalPositive(v: Js): Option<Js> {
    if v == Undefined then Some(Null) else if v.Num? && 1 <= v.n <= MAX_SAFE then Some(v) else None
  }

  /** A money amount as text or as a big integer below ten to the 78, printed. */
  function AnyAmount(v: Js): Option<Js> {
    if v.BigInt? && 0 <= v.i < Pow10(MAX_DIGITS) then Some(Str(Print(v.i)))
    else if v.Str? && MoneyText(v.s) then Some(v)
    else None
  }

  function OptionalAny(v: Js): Option<Js> { if v == Undefined || v == Null then Some(Null) else AnyAmount(v) }

  function OptionalSigned(v: Js): Option<Js> {
    if v == Undefined || v == Null then Some(Null)
    else if v.BigInt? && 0 <= v.i < Pow10(MAX_DIGITS) then Some(Str(Print(v.i)))
    else if v.BigInt? && 0 - Pow10(MAX_DIGITS) < v.i < 0 then Some(Str("-" + Print(-v.i)))
    else if v.Str? && SignedText(v.s) then Some(v)
    else None
  }

  /** Only big integers, of any size. */
  function OptionalMoney(v: Js): Option<Js> {
    if v == Undefined then Some(Null) else if v.BigInt? && v.i >= 0 then Some(Str(Print(v.i))) else None
  }

  function IsoTimestamp(c: Clock, v: Js): Option<Js> { c.date(v).Map(ms => Str(c.iso(ms))) }

  /** A record of members that may each fail. */
  function Assemble(keys: set<Key>, member: Key -> Option<Js>): Option<Js> {
    if exists key | key in keys :: member(key).None? then None
    else Some(Obj(map key | key in keys :: Unwrap(member(key))))
  }

  function Unwrap(v: Option<Js>): Js { if v.Some? then v.value else Undefined }

  function AllOf(items: seq<Js>, item: Js -> Option<Js>): Option<seq<Js>> {
    if exists v | v in items :: item(v).None? then None
    else Some(seq(|items|, i requires 0 <= i < |items| => Unwrap(item(items[i]))))
  }

  // ---------- actions ----------

  function ActionMember(c: Clock, v: Js, key: Key): Option<Js> {
    if key.type'? then (if NonEmptyText(Dot(v, type')) then Some(Dot(v, type')) else None)
    else if key.status? then
      (if Dot(v, status).Str? && Dot(v, status).s in ACTION_STATUSES then Some(Dot(v, status)) else None)
    else IsoTimestamp(c, Dot(v, at))
  }

  function ProjectAction(c: Clock, v: Js): Option<Js> {
    if !v.Obj? then None else Assemble({type', status, at}, key => ActionMember(c, v, key))
  }

  function AtOf(v: Js): string { if Dot(v, at).Str? then Dot(v, at).s else "" }

  function InsertByTime(compare: Collation, sorted: seq<Js>, v: Js): seq<Js> {
    if sorted == [] || compare(AtOf(v), AtOf(sorted[0])) < 0 then [v] + sorted
    else [sorted[0]] + InsertByTime(compare, sorted[1..], v)
  }

  function SortByTime(compare: Collation, items: seq<Js>): seq<Js> {
    if items == [] then []
    else InsertByTime(compare, SortByTime(compare, items[..|items| - 1]), items[|items| - 1])
  }

  predicate InTimeOrder(compare: Collation, s: seq<Js>) {
    forall i, j | 0 <= i < j < |s| :: compare(AtOf(s[i]), AtOf(s[j])) <= 0
  }

  /** No action of `s` is before this time. */
  predicate NoneBefore(compare: Collation, time: string, s: seq<Js>) {
    forall x | x in s :: compare(time, AtOf(x)) <= 0
  }

  lemma Prepend(compare: Collation, v: Js, s: seq<Js>)
    requires InTimeOrder(compare, s) && NoneBefore(compare, AtOf(v), s)
    ensures InTimeOrder(compare, [v] + s)
  {
    hide AtOf;
    assert forall j | 0 <= j < |s| :: s[j] in s;
  }

  lemma NoneBeforeFirst(compare: Collation, v: Js, s: seq<Js>)
    requires TotalPreorder(compare) && InTimeOrder(compare, s) && s != []
    requires compare(AtOf(v), AtOf(s[0])) < 0
    ensures NoneBefore(compare, AtOf(v), s)
  {
    hide AtOf, TotalPreorder;
    forall j | 0 <= j < |s| ensures compare(AtOf(v), AtOf(s[j])) <= 0 {
      if j > 0 { Total(compare, AtOf(v), AtOf(s[0]), AtOf(s[j])); }
    }
  }

  lemma NoneBeforeOf(compare: Collation, time: string, s: seq<Js>, t: seq<Js>, v: Js)
    requires NoneBefore(compare, time, s) && compare(time, AtOf(v)) <= 0
    requires multiset(t) == multiset(s) + multiset{v}
    ensures NoneBefore(compare, time, t)
  {
    hide AtOf;
    forall x | x in t ensures compare(time, AtOf(x)) <= 0 {
      assert x in multiset(t);
      assert x == v || x in multiset(s);
    }
  }

  lemma {:induction false} InsertInOrder(compare: Collation, sorted: seq<Js>, v: Js)
    requires TotalPreorder(compare) && InTimeOrder(compare, sorted)
    ensures InTimeOrder(compare, InsertByTime(compare, sorted, v))
    ensures multiset(InsertByTime(compare, sorted, v)) == multiset(sorted) + multiset{v}
  {
    hide AtOf, TotalPreorder, NoneBefore;
    if sorted == [] {
    } else if compare(AtOf(v), AtOf(sorted[0])) < 0 {
      NoneBeforeFirst(compare, v, sorted);
      Prepend(compare, v, sorted);
    } else {
      InsertInOrder(compare, sorted[1..], v);
      assert sorted == [sorted[0]] + sorted[1..];
      Swap(compare, AtOf(v), AtOf(sorted[0]));
      NoneBeforeTail(compare, sorted);
      NoneBeforeOf(compare, AtOf(sorted[0]), sorted[1..], InsertByTime(compare, sorted[1..], v), v);
      Prepend(compare, sorted[0], InsertByTime(compare, sorted[1..], v));
    }
  }

  lemma NoneBeforeTail(compare: Collation, s: seq<Js>)
    requires InTimeOrder(compare, s) && s != []
    ensures NoneBefore(compare, AtOf(s[0]), s[1..])
  {
  }

  lemma Swap(compare: Collation, a: string, b: string)
    requires TotalPreorder(compare) && compare(a, b) >= 0
    ensures compare(b, a) <= 0
  {
  }

  /** The actions come out in the order of their times, none lost. */
  lemma {:induction false} SortInOrder(compare: Collation, items: seq<Js>)
    requires TotalPreorder(compare)
    ensures InTimeOrder(compare, SortByTime(compare, items))
    ensures multiset(SortByTime(compare, items)) == multiset(items)
  {
    hide TotalPreorder, InTimeOrder, InsertByTime;
    if items != [] {
      SortInOrder(compare, items[..|items| - 1]);
      InsertInOrder(compare, SortByTime(compare, items[..|items| - 1]), items[|items| - 1]);
      assert items == items[..|items| - 1] + [items[|items| - 1]];
    } else {
      NothingInOrder(compare);
    }
  }

  lemma NothingInOrder(compare: Collation)
    ensures InTimeOrder(compare, [])
  {
  }

  function ProjectActions(c: Clock, compare: Collation, record: Js): Option<Js> {
    var line := Dot(record, timeline);
    if !line.Arr? then Some(Arr([]))
    else AllOf(line.items, v => ProjectAction(c, v)).Map(items => Arr(SortByTime(compare, items)))
  }

  // ---------- cards ----------

  function Packs(record: Js): seq<Js> { if Dot(record, packs).Arr? then Dot(record, packs).items else [] }

  function Orders(record: Js): seq<Js> {
    var os := Dot(Dot(record, packPlan), orders);
    if os.Arr? then os.items else []
  }

  function FirstOrder(os: seq<Js>, product: Js): Js {
    if os == [] then Undefined
    else if Dot(os[0], productId) == product then os[0]
    else FirstOrder(os[1..], product)
  }

  /** The price of the first order of the card's product. */
  function UnitPrice(record: Js, card: Js): Js {
    Dot(FirstOrder(Orders(record), Dot(card, productId)), unitPrice)
  }

  /**
    The image is printed by the URL parser, which takes the text of whatever it is given;
    credentials are left for the normaliser to refuse.
   */
  function ProjectImage(h: Host, https: string -> bool, v: Js): Option<Js> {
    if v == Undefined || v == Null then Some(Null)
    else
      var text := h.text(v);
      if h.url(text).Some? && https(text) then Some(Str(h.url(text).value.text)) else None
  }

  function ProjectCardMember(h: Host, https: string -> bool, record: Js, card: Js, key: Key): Option<Js> {
    if key.productId? || key.rarity? then RequiredBoundedText(Dot(card, key))
    else if key.imageUrl? then ProjectImage(h, https, Dot(card, imageUrl))
    else if key.packPriceMicroUsdg? then OptionalAny(Coalesce(Dot(card, key), UnitPrice(record, card)))
    else if key.buybackMicroUsdg? then OptionalAny(Coalesce(Dot(card, key), Dot(card, buybackAmount)))
    else NullableText(Dot(card, key))
  }

  function ProjectCard(h: Host, https: string -> bool, record: Js, card: Js): Option<Js> {
    if !card.Obj? then None else Assemble(CARD_KEYS, key => ProjectCardMember(h, https, record, card, key))
  }

  const WINDOW := 60

  /** The last cards of the record, oldest first. */
  function LastPacks(record: Js): (window: seq<Js>)
    ensures |window| == if |Packs(record)| < WINDOW then |Packs(record)| else WINDOW
    ensures window == Packs(record)[|Packs(record)| - |window|..]
  {
    var ps := Packs(record);
    if |ps| <= WINDOW then ps else ps[|ps| - WINDOW..]
  }

  function ProjectCards(h: Host, https: string -> bool, record: Js): Option<Js> {
    AllOf(LastPacks(record), card => ProjectCard(h, https, record, card)).Map(items => Arr(items))
  }

  // ---------- accounting ----------

  function Planned(record: Js): Option<nat> { SumQuantities(Orders(record)) }

  function SumQuantities(os: seq<Js>): Option<nat> {
    if os == [] then Some(0)
    else
      var before, q := SumQuantities(os[..|os| - 1]), Dot(os[|os| - 1], quantity);
      if before.None? || !q.Num? || !(0 <= q.n <= MAX_SAFE) then None else Some(before.value + q.n)
  }

  function FeeMember(v: Js, key: Key): Option<Js> {
    if key.lamports? then AnyAmount(Dot(v, key)) else RequiredBoundedText(Dot(v, key))
  }

  function ProjectNativeFee(v: Js): Option<Js> {
    if v == Undefined || v == Null then Some(Null) else Assemble({lamports, paidBy}, key => FeeMember(v, key))
  }

  function FeesMember(v: Js, key: Key): Option<Js> {
    if key.walletLamportsCharged? then OptionalAny(Dot(v, key)) else ProjectNativeFee(Dot(v, key))
  }

  function CostMember(ledger: Js, key: Key): Option<Js> {
    if key.outboundBridgeMicroUsdg? then OptionalAny(Dot(ledger, outboundMicroUsdg))
    else if key.inboundBridgeMicroUsdg? then OptionalAny(Dot(ledger, inboundMicroUsdg))
    else if key.collectorApiMicroUsdg? then OptionalAny(Dot(ledger, collectorMicroUsdg))
    else if key.evmNetworkMicroUsdg? then OptionalAny(Dot(ledger, evmGasMicroUsdg))
    else if key.solanaNetworkMicroUsdg? then OptionalAny(Dot(ledger, solanaGasMicroUsdg))
    else OptionalAny(Dot(ledger, slippageMicroUsdg))
  }

  /** The pack figures, the cycle result and the payout evidence stay unknown: nothing verified gives them. */
  function RoundMember(record: Js, key: Key): Option<Js> {
    var accounting, evidence, payout :=
      Dot(record, roundAccounting), Dot(record, roundEvidence), Dot(record, settlement);
    if key.quotedCosts? then Assemble(QUOTED_COSTS.allowed, k => CostMember(Dot(record, ledgerSnapshot), k))
    else if key.networkFees? then Assemble(NETWORK_FEES.allowed, k => FeesMember(Dot(evidence, networkFees), k))
    else if key.protectedCostsMicroUsdg? then OptionalAny(Dot(accounting, protectedCostForecastMicroUsdg))
    else if key.confirmedCostsMicroUsdg? then OptionalSigned(Dot(accounting, confirmedCostMicroUsdg))
    else if key.walletBalanceBeforeMicroUsdg? || key.walletBalanceAfterMicroUsdg? then
      OptionalAny(Dot(evidence, key))
    else if key.feeReserveBeforeMicroUsdg? || key.feeReserveTargetMicroUsdg? || key.feeReserveTopUpMicroUsdg?
      || key.feeReserveAfterMicroUsdg? then OptionalAny(Dot(accounting, key))
    else if key.plannedHolderRewardsMicroUsdg? then OptionalAny(Dot(accounting, holderRewardsMicroUsdg))
    else if key.paidHolderRewardsMicroUsdg? then
      OptionalAny(Coalesce(Dot(payout, paidThisCycleMicroUsdg), Dot(payout, paid)))
    else if key.holderRewardsStatus? then
      RequiredBoundedText(Coalesce(Dot(evidence, key), HolderStatus(Dot(accounting, holderRewardsMicroUsdg))))
    else if key.distributionStatus? then
      RequiredBoundedText(Coalesce(Dot(evidence, key), Coalesce(Dot(payout, status), PENDING)))
    else Some(Null)
  }

  const PENDING := Str("pending")

  function HolderStatus(planned: Js): Js {
    if planned == Undefined || planned == Null then PENDING else Str("computed")
  }

  function ProjectRound(record: Js): Option<Js> {
    var accounting := Dot(record, roundAccounting);
    if accounting == Undefined || accounting == Null then Some(Null)
    else Assemble(ROUND_KEYS + TYPED_KEYS, key => RoundMember(record, key))
  }

  // ---------- the cycle and the status ----------

  /** Whether an optional member is projected at all. */
  predicate Present(record: Js, key: Key) {
    if key.spentMicroUsdg? then Dot(Dot(record, packPlan), spentMicroUsdg) != Undefined
    else if key.paidMicroUsdg? then
      || Dot(Dot(record, settlement), paidThisCycleMicroUsdg) != Undefined
      || Dot(Dot(record, settlement), paid) != Undefined
    else Dot(record, key) != Undefined
  }

  function Reason(v: Js): Option<Js> {
    if v.Str? && 1 <= |v.s| <= 64 && AllIn(v.s[..1], LOWER) && AllIn(v.s, LOWER + [('-', '-')]) then Some(v) else None
  }

  function PaidMember(record: Js): Option<Js> {
    var payout := Dot(record, settlement);
    if Dot(payout, paidThisCycleMicroUsdg) != Undefined then
      (if Dot(payout, paidThisCycleMicroUsdg).Str? && MoneyText(Dot(payout, paidThisCycleMicroUsdg).s)
       then Some(Dot(payout, paidThisCycleMicroUsdg)) else None)
    else OptionalMoney(Dot(payout, paid))
  }

  datatype Env = Env(host: Host, clock: Clock, compare: Collation, https: string -> bool)

  function ProjectMember(e: Env, record: Js, key: Key): Option<Js> {
    var plan := Dot(record, packPlan);
    if key.cycleId? || key.status? then Some(Dot(record, key))
    else if key.selectedPackId? then OptionalText(Dot(plan, key))
    else if key.maxBoostersPerCycle? then OptionalPositive(Dot(plan, key))
    else if key.plannedBoosters? then Planned(record).Map(n => Num(n))
    else if key.openedBoosters? then Some(Num(|Packs(record)|))
    else if key.actions? then ProjectActions(e.clock, e.compare, record)
    else if key.cards? then ProjectCards(e.host, e.https, record)
    else if key.returnedMicroUsdg? then OptionalMoney(Dot(Dot(record, inbound), amountReceived))
    else if key.rewardStatus? then OptionalText(Dot(Dot(record, settlement), status))
    else if key.roundAccounting? then ProjectRound(record)
    else if key.reason? then Reason(Dot(record, key))
    else if key.startedAt? || key.updatedAt? then IsoTimestamp(e.clock, Dot(record, key))
    else if key.spentMicroUsdg? then OptionalMoney(Dot(plan, key))
    else PaidMember(record)
  }

  function ProjectedKeys(record: Js): set<Key> {
    REQUIRED_KEYS + set key | key in OPTIONAL_KEYS && Present(record, key)
  }

  function ProjectRecord(e: Env, record: Js): Option<Js> {
    if !record.Obj? || !NonEmptyText(Dot(record, cycleId)) || !NonEmptyText(Dot(record, status)) then None
    else Assemble(ProjectedKeys(record), key => ProjectMember(e, record, key))
  }

  predicate IsTime(ms: int) { 0 <= ms <= MAX_SAFE && IsDate(ms) }

  predicate IsState(state: string) { state == "active" || state == "paused" }

  function StatusFigure(c: Clock, now: int, next: int, p: Profile, state: string, projected: Js, key: Key): Js {
    if key.schemaVersion? then Num(3)
    else if key.profile? then ProfileName(p)
    else if key.network? then NetworkOf(p)
    else if key.executionState? then Str(state)
    else if key.executionReason? then (if state == "paused" then Str("operator-paused") else Null)
    else if key.generatedAt? then Str(c.iso(now))
    else if key.nextCycleAt? then Str(c.iso(next))
    else if key.countdownSeconds? then Num(CountdownSeconds(now, next))
    else projected
  }

  function StatusOf(c: Clock, now: int, next: int, p: Profile, state: string, projected: Js): map<Key, Js> {
    map key | key in STATUS_KEYS :: StatusFigure(c, now, next, p, state, projected, key)
  }

  function ProjectedCycle(e: Env, record: Js): Option<Js> {
    if record == Null then Some(Null) else ProjectRecord(e, record)
  }

  function ProjectPublicCycle(e: Env, now: int, next: int, record: Js, p: Profile, state: string): Option<Js> {
    if !IsTime(now) || !IsTime(next) || !IsState(state) then None
    else
      match ProjectedCycle(e, record)
      case None => None
      case Some(projected) => Normalise(e.host, Domain, None, Obj(StatusOf(e.clock, now, next, p, state, projected)))
  }

  // ---------- the countdown ----------

  lemma StatusListed()
    ensures generatedAt in STATUS_KEYS && nextCycleAt in STATUS_KEYS && countdownSeconds in STATUS_KEYS
    ensures executionState in STATUS_KEYS && executionReason in STATUS_KEYS && cycle in STATUS_KEYS
    ensures schemaVersion in STATUS_KEYS && profile in STATUS_KEYS
  {
  }

  lemma StatusFigures(c: Clock, now: int, next: int, p: Profile, state: string, projected: Js)
    ensures var s := StatusOf(c, now, next, p, state, projected);
      && Get(s, generatedAt) == Str(c.iso(now)) && Get(s, nextCycleAt) == Str(c.iso(next))
      && Get(s, countdownSeconds) == Num(CountdownSeconds(now, next))
      && Get(s, executionState) == Str(state)
      && Get(s, executionReason) == (if state == "paused" then Str("operator-paused") else Null)
      && Get(s, cycle) == projected && Get(s, schemaVersion) == Num(3) && Get(s, profile) == ProfileName(p)
  {
    hide STATUS_KEYS, ProfileName, NetworkOf, CountdownSeconds;
    StatusListed();
  }

  /** The countdown and the reason that are projected always pass the reader's own recomputation. */
  lemma CountdownPasses(e: Env, now: int, next: int, p: Profile, state: string, projected: Js)
    requires Keeps(e.clock, e.host) && IsTime(now) && IsTime(next)
    ensures var s := StatusOf(e.clock, now, next, p, state, projected);
      Passes(e.host, Countdown, s) && Passes(e.host, PausedReason, s)
  {
    hide StatusOf, CountdownSeconds;
    StatusFigures(e.clock, now, next, p, state, projected);
    assert e.host.time(e.clock.iso(now)) == Some(now) && e.host.time(e.clock.iso(next)) == Some(next);
  }

  // ---------- projected cards are normal forms ----------

  lemma LeafIdentity(h: Host, v: Js)
    requires v != Undefined
    ensures Read(h, TEXT, v).Some? ==> Read(h, TEXT, v) == Some(v)
    ensures Read(h, MAYBE_TEXT, v).Some? ==> Read(h, MAYBE_TEXT, v) == Some(v)
    ensures Read(h, MAYBE_MONEY, v).Some? ==> Read(h, MAYBE_MONEY, v) == Some(v)
  {
    hide MoneyText;
  }

  lemma ImageIdentity(h: Host, https: string -> bool, image: Js)
    requires Sane(h) && ProjectImage(h, https, image).Some?
    ensures var v := ProjectImage(h, https, image).value;
      && (Read(h, MAYBE_IMAGE, v).Some? ==> Read(h, MAYBE_IMAGE, v) == Some(v) && PrintsShort(h, v))
  {
    assert UrlStays(h, h.text(image));
  }

  lemma AmountsDefined(v: Js)
    ensures OptionalAny(v).Some? ==> OptionalAny(v).value != Undefined
    ensures NullableText(v).Some? ==> NullableText(v).value != Undefined
    ensures RequiredBoundedText(v).Some? ==> RequiredBoundedText(v).value != Undefined
  {
    hide MoneyText, Pow10, Print;
  }

  lemma CardMemberIdentity(h: Host, https: string -> bool, record: Js, card: Js, key: Key)
    requires Sane(h) && ProjectCardMember(h, https, record, card, key).Some?
    ensures var v := ProjectCardMember(h, https, record, card, key).value;
      && (Read(h, CardMember(key), v).Some? ==> Read(h, CardMember(key), v) == Some(v))
      && (key == imageUrl && Read(h, CardMember(key), v).Some? ==> PrintsShort(h, v))
  {
    hide Read, ProjectImage, OptionalAny, NullableText, RequiredBoundedText, UnitPrice, PrintsShort, Dot, Sane, Coalesce,
         TEXT, MAYBE_TEXT, MAYBE_MONEY, MAYBE_IMAGE;
    var v := ProjectCardMember(h, https, record, card, key).value;
    if key.imageUrl? {
      ImageIdentity(h, https, Dot(card, imageUrl));
    } else {
      AmountsDefined(Dot(card, key));
      AmountsDefined(Coalesce(Dot(card, key), UnitPrice(record, card)));
      AmountsDefined(Coalesce(Dot(card, key), Dot(card, buybackAmount)));
      LeafIdentity(h, v);
    }
  }

  lemma CardIdentity(h: Host, https: string -> bool, record: Js, card: Js)
    requires Sane(h) && ProjectCard(h, https, record, card).Some?
    requires Read(h, CardKind(3), ProjectCard(h, https, record, card).value).Some?
    ensures var item := ProjectCard(h, https, record, card).value;
      Read(h, CardKind(3), item) == Some(item) && CardPrintsShort(h, item)
  {
    hide Read, CARD_KEYS, CardMember, ProjectCardMember, PrintsShort;
    var item := ProjectCard(h, https, record, card).value;
    ImageListed();
    RecordRead(h, CardKind(3), item.fields);
    var out := Read(h, CardKind(3), item).value.fields;
    forall key | key in CARD_KEYS ensures key in out && out[key] == item.fields[key] {
      assert ProjectCardMember(h, https, record, card, key).Some?;
      CardMemberIdentity(h, https, record, card, key);
      assert key in AlwaysKeys(CardKind(3).members);
    }
    assert out == item.fields;
    CardMemberIdentity(h, https, record, card, imageUrl);
  }

  lemma ImageListed()
    ensures imageUrl in CARD_KEYS
  {
  }

  /** A list of normal forms is one. */
  lemma {:induction false} ItemsIdentity(h: Host, k: Kind, items: seq<Js>)
    requires forall v | v in items :: Read(h, k, v) == Some(v)
    ensures ReadItems(h, k, items) == Some(items)
    decreases |items|
  {
    hide Read;
    if items != [] {
      assert items[0] in items;
      ItemsIdentity(h, k, items[1..]);
      assert [items[0]] + items[1..] == items;
    }
  }

  lemma AllOfItems(items: seq<Js>, item: Js -> Option<Js>)
    requires AllOf(items, item).Some?
    ensures var out := AllOf(items, item).value;
      |out| == |items| && forall i | 0 <= i < |items| :: item(items[i]) == Some(out[i])
  {
    forall i | 0 <= i < |items| ensures item(items[i]).Some? {
      assert items[i] in items;
    }
  }

  lemma CardListIdentity(e: Env, record: Js, window: seq<Js>, items: seq<Js>)
    requires Sane(e.host) && |items| == |window|
    requires forall i | 0 <= i < |items| :: ProjectCard(e.host, e.https, record, window[i]) == Some(items[i])
    requires ReadItems(e.host, CardKind(3), items).Some?
    ensures ReadItems(e.host, CardKind(3), items) == Some(items)
    ensures forall v | v in items :: CardPrintsShort(e.host, v)
  {
    hide Read, CardKind, ProjectCard, CardPrintsShort, Sane;
    ItemsRead(e.host, CardKind(3), items);
    forall i | 0 <= i < |items|
      ensures Read(e.host, CardKind(3), items[i]) == Some(items[i]) && CardPrintsShort(e.host, items[i])
    {
      CardIdentity(e.host, e.https, record, window[i]);
    }
    ItemsIdentity(e.host, CardKind(3), items);
  }

  lemma CardsProjected(e: Env, record: Js)
    requires ProjectCards(e.host, e.https, record).Some?
    ensures var list := ProjectCards(e.host, e.https, record).value;
      && list.Arr? && |list.items| == |LastPacks(record)|
      && forall i | 0 <= i < |list.items| ::
        ProjectCard(e.host, e.https, record, LastPacks(record)[i]) == Some(list.items[i])
  {
    hide ProjectCard, AllOf;
    AllOfItems(LastPacks(record), card => ProjectCard(e.host, e.https, record, card));
  }

  lemma ListRead(h: Host, max: nat, k: Kind, items: seq<Js>)
    ensures Read(h, List(max, k), Arr(items)).Some? ==> ReadItems(h, k, items).Some?
    ensures Read(h, List(max, k), Arr(items)).Some? && ReadItems(h, k, items) == Some(items) ==>
      Read(h, List(max, k), Arr(items)) == Some(Arr(items))
  {
    hide ReadItems, Accepts, Given, Passes;
  }

  lemma CardsIdentity(e: Env, record: Js)
    requires Sane(e.host) && ProjectCards(e.host, e.https, record).Some?
    requires Read(e.host, List(60, CardKind(3)), ProjectCards(e.host, e.https, record).value).Some?
    ensures var list := ProjectCards(e.host, e.https, record).value;
      Read(e.host, List(60, CardKind(3)), list) == Some(list) && ImagesPrintShort(e.host, list)
  {
    hide Read, ReadItems, CardKind, ProjectCard, ProjectCards, CardPrintsShort, Sane;
    CardsProjected(e, record);
    var items := ProjectCards(e.host, e.https, record).value.items;
    ListRead(e.host, 60, CardKind(3), items);
    CardListIdentity(e, record, LastPacks(record), items);
  }

  // ---------- the projection ----------

  lemma CycleMembersListed(record: Js)
    ensures cards in ProjectedKeys(record) && openedBoosters in ProjectedKeys(record)
    ensures roundAccounting in ProjectedKeys(record)
    ensures openedBoosters in REQUIRED_KEYS && cards in REQUIRED_KEYS && roundAccounting in REQUIRED_KEYS
    ensures CycleMember(openedBoosters, Domain, 3) == COUNT
    ensures CycleMember(cards, Domain, 3) == List(60, CardKind(3))
  {
  }

  lemma Projected(e: Env, record: Js, key: Key)
    requires ProjectRecord(e, record).Some? && key in ProjectedKeys(record)
    ensures ProjectRecord(e, record).value.Obj?
    ensures ProjectMember(e, record, key) == Some(Get(ProjectRecord(e, record).value.fields, key))
  {
    hide ProjectMember, ProjectedKeys;
    assert ProjectMember(e, record, key).Some?;
  }

  lemma CountRead(h: Host, v: Js)
    requires Read(h, COUNT, v).Some?
    ensures Read(h, COUNT, v) == Some(v)
  {
  }

  /** Of a cycle that the reader accepts, the cards and their number come out as they were projected. */
  lemma CycleKept(e: Env, record: Js)
    requires Sane(e.host) && ProjectRecord(e, record).Some?
    requires Read(e.host, Nullable(Cycle(Domain, 3)), ProjectRecord(e, record).value).Some?
    ensures var c := ProjectRecord(e, record).value;
      var out := Read(e.host, Nullable(Cycle(Domain, 3)), c).value;
      && c.Obj? && out.Obj? && ProjectCards(e.host, e.https, record).Some?
      && Get(out.fields, openedBoosters) == Num(|Packs(record)|)
      && Get(out.fields, cards) == ProjectCards(e.host, e.https, record).value
      && ImagesPrintShort(e.host, Get(c.fields, cards))
  {
    hide Read, CycleMember, ProjectedKeys, ProjectRecord, CycleMembers, ImagesPrintShort, ProjectCards, REQUIRED_KEYS,
         OPTIONAL_KEYS, CardKind;
    CycleMembersListed(record);
    Projected(e, record, cards);
    Projected(e, record, openedBoosters);
    var c := ProjectRecord(e, record).value;
    IsCycle(3);
    SomeRead(e.host, Cycle(Domain, 3), c);
    Listed();
    MemberRead(e.host, Cycle(Domain, 3), c.fields, cards);
    MemberRead(e.host, Cycle(Domain, 3), c.fields, openedBoosters);
    CountRead(e.host, Get(c.fields, openedBoosters));
    CardsIdentity(e, record);
  }

  lemma Listed()
    ensures var ms := Cycle(Domain, 3).members;
      && cards in ms && ms[cards] == Req(List(60, CardKind(3)))
      && openedBoosters in ms && ms[openedBoosters] == Req(COUNT)
  {
  }

  lemma NormaliseCurrent(h: Host, s: map<Key, Js>, p: Profile)
    requires Get(s, schemaVersion) == Num(3) && Get(s, profile) == ProfileName(p)
    ensures VersionOf(s) == 3
    ensures Normalise(h, Domain, None, Obj(s)) == Read(h, Status(Domain, 3, p), Obj(s))
  {
    hide Read, Status, IsProfile, ReadProfile, ProfileName, Idle, IdleOk;
    ProfileRead(p);
  }

  /** A projection is what the reader makes of the built status, and its cycle what it makes of the projected one. */
  lemma Unfolded(e: Env, now: int, next: int, record: Js, p: Profile, state: string)
    requires ProjectPublicCycle(e, now, next, record, p, state).Some? && ProjectedCycle(e, record).Some?
    ensures var projected := ProjectedCycle(e, record).value;
      var s := StatusOf(e.clock, now, next, p, state, projected);
      var w := ProjectPublicCycle(e, now, next, record, p, state);
      && Normalise(e.host, Domain, None, Obj(s)) == w && w.value.Obj?
      && Get(s, cycle) == projected
      && Read(e.host, Nullable(Cycle(Domain, 3)), projected) == Some(Get(w.value.fields, cycle))
  {
    hide Read, Status, Cycle, StatusOf, Normalise, ProjectedCycle, IsTime, IsState, ProfileName, VersionOf;
    var s := StatusOf(e.clock, now, next, p, state, ProjectedCycle(e, record).value);
    StatusFigures(e.clock, now, next, p, state, ProjectedCycle(e, record).value);
    NormaliseCurrent(e.host, s, p);
    Cyclic(3, p);
    MemberRead(e.host, Status(Domain, 3, p), s, cycle);
  }

  lemma SomethingProjected(e: Env, now: int, next: int, record: Js, p: Profile, state: string)
    requires ProjectPublicCycle(e, now, next, record, p, state).Some?
    ensures ProjectedCycle(e, record).Some?
  {
    hide ProjectedCycle, Normalise, StatusOf, IsTime, IsState;
  }

  /** The cycle of the built status can be read twice. */
  lemma CycleSteady(e: Env, record: Js)
    requires Sane(e.host) && ProjectedCycle(e, record).Some?
    requires Read(e.host, Nullable(Cycle(Domain, 3)), ProjectedCycle(e, record).value).Some?
    ensures var projected := ProjectedCycle(e, record).value;
      var c := Read(e.host, Nullable(Cycle(Domain, 3)), projected).value;
      && (projected.Obj? ==> ImagesPrintShort(e.host, Get(projected.fields, cards)))
      && (record == Null ==> c == Null) && (record != Null ==> CycleOf(e, record, c))
      && (c.Obj? && Get(c.fields, roundAccounting) != Null <==> Accounted(record))
  {
    hide Read, Cycle, ProjectRecord, CycleOf, ImagesPrintShort, Accounted, ProjectCards, Packs, Sane;
    if record == Null {
      Cyclic(3, Testnet);
      NullableRead(e.host, Cycle(Domain, 3), Null);
      NothingAccounted();
    } else {
      CycleKept(e, record);
      CycleOfKept(e, record);
      AccountingKept(e, record);
    }
  }

  /**
    Every projection that returns is its own normal form, with the number of packs as its opened
    boosters and as its cards exactly the last sixty packs in the order in which they were revealed.
   */
  lemma ProjectionIsNormal(e: Env, now: int, next: int, record: Js, p: Profile, state: string)
    requires Sane(e.host) && ProjectPublicCycle(e, now, next, record, p, state).Some?
    ensures var w := ProjectPublicCycle(e, now, next, record, p, state).value;
      && w.Obj?
      && Normalise(e.host, Domain, None, w) == Some(w)
      && (record == Null ==> Get(w.fields, cycle) == Null)
      && (record != Null ==> CycleOf(e, record, Get(w.fields, cycle)))
  {
    hide Read, Cycle, StatusOf, Normalise, ProjectPublicCycle, ProjectedCycle, CycleOf, ImagesPrintShort, Accounted,
         Sane;
    SomethingProjected(e, now, next, record, p, state);
    Unfolded(e, now, next, record, p, state);
    CycleSteady(e, record);
    FixedPoint(e.host, Domain, None, Obj(StatusOf(e.clock, now, next, p, state, ProjectedCycle(e, record).value)));
  }

  lemma ProfileRead(p: Profile)
    ensures IsProfile(ProfileName(p)) && ReadProfile(ProfileName(p)) == p
  {
    NamesApart();
  }

  lemma Cyclic(version: nat, p: Profile)
    ensures var k := Status(Domain, version, p);
      && k.Record? && cycle in k.members && k.members[cycle] == Req(Nullable(Cycle(Domain, version)))
    ensures Cycle(Domain, version).Record?
  {
    CycleListed(Domain, version, p);
  }

  /** The public cycle of a record. */
  ghost predicate CycleOf(e: Env, record: Js, c: Js) {
    && c.Obj?
    && Get(c.fields, openedBoosters) == Num(|Packs(record)|)
    && Get(c.fields, cards).Arr?
    && |Get(c.fields, cards).items| == |LastPacks(record)|
    && (forall i | 0 <= i < |LastPacks(record)| ::
          ProjectCard(e.host, e.https, record, LastPacks(record)[i]) == Some(Get(c.fields, cards).items[i]))
  }

  lemma CycleOfKept(e: Env, record: Js)
    requires Sane(e.host) && ProjectRecord(e, record).Some?
    requires Read(e.host, Nullable(Cycle(Domain, 3)), ProjectRecord(e, record).value).Some?
    ensures CycleOf(e, record, Read(e.host, Nullable(Cycle(Domain, 3)), ProjectRecord(e, record).value).value)
  {
    hide Read, Cycle, ProjectRecord, ProjectCard, ProjectCards;
    CycleKept(e, record);
    CardsProjected(e, record);
  }

  // ---------- read by the web ----------

  /** The record has accounting. */
  predicate Accounted(record: Js) {
    var accounting := Dot(record, roundAccounting);
    record != Null && accounting != Undefined && accounting != Null
  }

  lemma RoundProjected(record: Js)
    requires ProjectRound(record).Some?
    ensures Dot(record, roundAccounting) == Undefined || Dot(record, roundAccounting) == Null
      <==> ProjectRound(record) == Some(Null)
    ensures ProjectRound(record) == Some(Null) || ProjectRound(record).value.Obj?
  {
    hide RoundMember, ROUND_KEYS, TYPED_KEYS;
  }

  lemma RoundRead(h: Host, round: Js)
    requires Read(h, RoundAccounting(Domain, 3), round).Some? && (round == Null || round.Obj?)
    ensures Read(h, RoundAccounting(Domain, 3), round) == Some(Null) <==> round == Null
  {
    hide Read, TypedRound;
    IsTypedRound();
    NullableRead(h, TypedRound(AnyText), round);
    if round != Null {
      SomeRead(h, TypedRound(AnyText), round);
    }
  }

  lemma AccountingKept(e: Env, record: Js)
    requires ProjectRecord(e, record).Some?
    requires Read(e.host, Nullable(Cycle(Domain, 3)), ProjectRecord(e, record).value).Some?
    ensures var out := Read(e.host, Nullable(Cycle(Domain, 3)), ProjectRecord(e, record).value).value;
      out.Obj? && record != Null && (Get(out.fields, roundAccounting) == Null <==> !Accounted(record))
  {
    hide Read, CycleMember, ProjectedKeys, CycleMembers, REQUIRED_KEYS, OPTIONAL_KEYS, ProjectRound, ProjectRecord,
         RoundAccounting, Cycle, Sane;
    CycleMembersListed(record);
    Projected(e, record, roundAccounting);
    IsRecord(e, record);
    var c := ProjectRecord(e, record).value;
    IsCycle(3);
    SomeRead(e.host, Cycle(Domain, 3), c);
    AccountingListed();
    MemberRead(e.host, Cycle(Domain, 3), c.fields, roundAccounting);
    RoundProjected(record);
    RoundRead(e.host, Get(c.fields, roundAccounting));
  }

  lemma IsRecord(e: Env, record: Js)
    requires ProjectRecord(e, record).Some?
    ensures record != Null
  {
    hide Assemble;
  }

  lemma AccountingListed()
    ensures var ms := Cycle(Domain, 3).members;
      roundAccounting in ms && ms[roundAccounting] == Req(RoundAccounting(Domain, 3))
  {
  }

  lemma NothingAccounted()
    ensures !Accounted(Null)
  {
  }

  /** The web reader returns a projection unchanged, or rejects it just when the record has accounting. */
  lemma WebReadsProjection(e: Env, now: int, next: int, record: Js, p: Profile, state: string)
    requires Sane(e.host) && ProjectPublicCycle(e, now, next, record, p, state).Some?
    ensures var w := ProjectPublicCycle(e, now, next, record, p, state).value;
      Normalise(e.host, Web, None, w) == if Accounted(record) then None else Some(w)
  {
    hide Read, Cycle, StatusOf, Normalise, ProjectPublicCycle, ProjectedCycle, CycleOf, ImagesPrintShort, Accounted,
         Sane;
    SomethingProjected(e, now, next, record, p, state);
    Unfolded(e, now, next, record, p, state);
    CycleSteady(e, record);
    DomainToWeb(e.host, Obj(StatusOf(e.clock, now, next, p, state, ProjectedCycle(e, record).value)));
  }
}

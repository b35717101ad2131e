/** Community snapshots that are accepted and whose normal form is not. */
module SnapshotExamples {
  import opened CommunitySnapshot
  import opened Decimal
  import opened LegacyRound
  import opened PublicCards
  import opened Renormalise
  import opened Schema
  import opened Tables
  import opened Wrappers

  // ---------- a snapshot with nothing in it but a cycle and cards ----------

  function QuietMetric(key: Key): Js {
    if key.latestObservedProjectPoolMicroUsdg? then Null
    else if key.completedCycles? || key.skippedCycles? || key.openedPacks? then Num(0)
    else Str("0")
  }

  function QuietMetrics(): map<Key, Js> { map key | key in METRIC_KEYS :: QuietMetric(key) }

  function QuietMember(version: nat, p: Profile, at: string, cycle: Js, list: Js, key: Key): Js {
    if key.schemaVersion? then Num(version)
    else if key.profile? then ProfileName(p)
    else if key.badge? then BadgeOf(p)
    else if key.network? then NetworkOf(p)
    else if key.historyComplete? || key.delayed? then Bool(false)
    else if key.generatedAt? then Str(at)
    else if key.nextCycleAt? || key.poolObservedAt? then Null
    else if key.metrics? then Obj(QuietMetrics())
    else if key.latestCycle? then cycle
    else list
  }

  function Quiet(version: nat, p: Profile, at: string, cycle: Js, list: Js): map<Key, Js> {
    map key | key in SNAPSHOT_KEYS :: QuietMember(version, p, at, cycle, list, key)
  }

  predicate IsTimeText(h: Host, at: string) { 1 <= |at| <= MAX_TEXT && h.time(at).Some? }

  lemma QuietLeaves(h: Host, at: string)
    requires IsTimeText(h, at)
    ensures Reads(h, MONEY, Str("0")) && Reads(h, COUNT, Num(0)) && Reads(h, Is(Boolean), Bool(false))
    ensures Reads(h, Is(Time), Str(at)) && Reads(h, NULL_TIME, Null) && Reads(h, Nullable(MONEY), Null)
  {
  }

  lemma QuietHeader(h: Host, version: nat, p: Profile)
    ensures Reads(h, Is(Emit(ProfileName(p), ProfileName(p))), ProfileName(p))
    ensures Reads(h, Is(Emit(BadgeOf(p), BadgeOf(p))), BadgeOf(p))
    ensures Reads(h, Is(Emit(NetworkOf(p), NetworkOf(p))), NetworkOf(p))
    ensures Read(h, Is(Emit(Num(version), Num(Next(version)))), Num(version)) == Some(Num(Next(version)))
  {
    hide ProfileName, BadgeOf, NetworkOf;
  }

  lemma QuietMetricsRead(h: Host, version: nat, at: string)
    requires 3 <= version < 8 && IsTimeText(h, at)
    ensures Reads(h, Metrics(version), Obj(QuietMetrics()))
  {
    hide Reads, METRIC_KEYS;
    QuietLeaves(h, at);
    RecordReads(h, Metrics(version), QuietMetrics());
  }

  /** What the snapshot is read as, member by member. */
  lemma QuietMemberRead(h: Host, version: nat, p: Profile, at: string, cycle: Js, list: Js, key: Key)
    requires 3 <= version <= 5 && IsTimeText(h, at) && key in SNAPSHOT_KEYS
    requires Read(h, Nullable(Cycle(version)), cycle).Some? && Read(h, List(12, CardKind(version)), list).Some?
    ensures var k, v := SnapshotMember(key, version, p), QuietMember(version, p, at, cycle, list, key);
      && Read(h, k, v).Some?
      && (key.metrics? || key.poolObservedAt? ==> Read(h, k, v) == Some(v))
  {
    hide Read, Cycle, CardKind, ProfileName, BadgeOf, NetworkOf, Metrics, QuietMetrics, HeldPosition, SNAPSHOT_KEYS,
      COUNT, NULL_TIME;
    QuietKeysCovered(key);
    QuietLeaves(h, at);
    QuietHeader(h, version, p);
    QuietMetricsRead(h, version, at);
    ReadsIsRead(h);
  }

  lemma QuietKeysCovered(key: Key)
    requires key in SNAPSHOT_KEYS
    ensures || key.schemaVersion? || key.profile? || key.badge? || key.network? || key.historyComplete?
            || key.generatedAt? || key.nextCycleAt? || key.delayed? || key.poolObservedAt? || key.metrics?
            || key.latestCycle? || key.cards?
  {
  }

  lemma QuietShape(version: nat, p: Profile, source: map<Key, Js>)
    requires 3 <= version <= 5 && source.Keys == SNAPSHOT_KEYS
    ensures var k := Snapshot(version, p);
      && k.Record? && k.members.Keys == k.allowed == k.required == SNAPSHOT_KEYS && k.checks == [PoolFresh]
      && (forall key: Key :: key in SNAPSHOT_KEYS <==> Built(k.members, source, key))
      && (forall key | key in SNAPSHOT_KEYS :: k.members[key].kind == SnapshotMember(key, version, p))
  {
    hide SnapshotMember, SNAPSHOT_KEYS;
  }

  lemma QuietRead(h: Host, version: nat, p: Profile, at: string, cycle: Js, list: Js)
    requires 3 <= version <= 5 && IsTimeText(h, at)
    requires Read(h, Nullable(Cycle(version)), cycle).Some? && Read(h, List(12, CardKind(version)), list).Some?
    ensures Read(h, Snapshot(version, p), Obj(Quiet(version, p, at, cycle, list))).Some?
  {
    hide Read, Snapshot, SnapshotMember, QuietMember, SNAPSHOT_KEYS, Cycle, CardKind, QuietMetrics, Built, Passes;
    var source := Quiet(version, p, at, cycle, list);
    QuietShape(version, p, source);
    forall key | key in SNAPSHOT_KEYS ensures Read(h, SnapshotMember(key, version, p), source[key]).Some? {
      QuietMemberRead(h, version, p, at, cycle, list, key);
    }
    var out := map key | key in SNAPSHOT_KEYS :: Read(h, SnapshotMember(key, version, p), source[key]).value;
    QuietChecks(h, version, p, at, cycle, list, out);
    ReadBuilds(h, Snapshot(version, p), source, out);
  }

  lemma QuietListed()
    ensures metrics in SNAPSHOT_KEYS && poolObservedAt in SNAPSHOT_KEYS && generatedAt in SNAPSHOT_KEYS
    ensures latestObservedProjectPoolMicroUsdg in METRIC_KEYS
    ensures schemaVersion in SNAPSHOT_KEYS && profile in SNAPSHOT_KEYS && latestCycle in SNAPSHOT_KEYS
    ensures cards in SNAPSHOT_KEYS
  {
  }

  lemma QuietChecks(h: Host, version: nat, p: Profile, at: string, cycle: Js, list: Js, out: map<Key, Js>)
    requires 3 <= version <= 5 && IsTimeText(h, at) && out.Keys == SNAPSHOT_KEYS
    requires Read(h, Nullable(Cycle(version)), cycle).Some? && Read(h, List(12, CardKind(version)), list).Some?
    requires forall key | key in SNAPSHOT_KEYS ::
      Read(h, SnapshotMember(key, version, p), QuietMember(version, p, at, cycle, list, key)) == Some(out[key])
    ensures Passes(h, PoolFresh, out)
  {
    hide Read, SnapshotMember, SNAPSHOT_KEYS, Cycle, CardKind, METRIC_KEYS;
    QuietListed();
    QuietMemberRead(h, version, p, at, cycle, list, metrics);
    QuietMemberRead(h, version, p, at, cycle, list, poolObservedAt);
    assert out[metrics] == Obj(QuietMetrics()) && out[poolObservedAt] == Null;
  }

  lemma QuietFigures(version: nat, p: Profile, at: string, cycle: Js, list: Js)
    requires 3 <= version <= 5
    ensures var s := Quiet(version, p, at, cycle, list);
      && VersionOf(s) == version && Get(s, profile) == ProfileName(p)
      && Get(s, latestCycle) == cycle && Get(s, cards) == list
  {
    hide SNAPSHOT_KEYS, ProfileName, BadgeOf, NetworkOf, QuietMetrics;
    QuietListed();
  }

  lemma QuietWithCycle(version: nat, p: Profile, at: string, cycle: Js, list: Js, other: Js)
    ensures Quiet(version, p, at, cycle, list)[latestCycle := other] == Quiet(version, p, at, other, list)
  {
    hide SNAPSHOT_KEYS, QuietMember;
    QuietListed();
    forall key
      ensures key != latestCycle ==>
        QuietMember(version, p, at, cycle, list, key) == QuietMember(version, p, at, other, list, key)
      ensures key == latestCycle ==> QuietMember(version, p, at, other, list, key) == other
    {
      CycleMatters(version, p, at, cycle, list, other, key);
    }
  }

  lemma CycleMatters(version: nat, p: Profile, at: string, cycle: Js, list: Js, other: Js, key: Key)
    ensures !key.latestCycle? ==>
      QuietMember(version, p, at, cycle, list, key) == QuietMember(version, p, at, other, list, key)
    ensures key.latestCycle? ==> QuietMember(version, p, at, other, list, key) == other
  {
    hide ProfileName, BadgeOf, NetworkOf, QuietMetrics;
  }

  lemma QuietAccepted(h: Host, expected: Option<Profile>, version: nat, p: Profile, at: string, list: Js)
    requires expected.Some? ==> expected.value == p
    requires 4 <= version <= 5 && IsTimeText(h, at) && Read(h, List(12, CardKind(version)), list).Some?
    ensures Normalise(h, expected, Obj(Quiet(version, p, at, Null, list))).Some?
  {
    hide Read, Snapshot, Quiet, CardKind, Cycle, ProfileName, IsProfile, ReadProfile;
    QuietFigures(version, p, at, Null, list);
    ProfileIs(p);
    NullReads(h, Cycle(version));
    QuietRead(h, version, p, at, Null, list);
  }

  lemma ProfileIs(p: Profile)
    ensures IsProfile(ProfileName(p)) && ReadProfile(ProfileName(p)) == p
  {
    assert "testnet"[0] != "mainnet"[0];
  }

  lemma NullReads(h: Host, k: Kind)
    ensures Reads(h, Nullable(k), Null)
  {
  }

  // ---------- an image whose URL grows ----------

  function ImageCardMember(image: string, key: Key): Js {
    if key.cycleId? || key.productId? || key.rarity? then Str("x")
    else if key.imageUrl? then Str(image)
    else Null
  }

  function ImageCard(image: string): Js { Obj(map key | key in CARD_KEYS :: ImageCardMember(image, key)) }

  /** A URL that is accepted and prints to `text`. */
  predicate Prints(h: Host, image: string, text: string) {
    1 <= |image| <= MAX_TEXT && h.url(image) == Some(Url(text, true))
  }

  lemma ImageMemberRead(h: Host, image: string, text: string, key: Key)
    requires Prints(h, image, text)
    ensures Read(h, CardMember(key), ImageCardMember(image, key)).Some?
  {
    hide Read, TEXT, MAYBE_TEXT, MAYBE_MONEY, MAYBE_IMAGE, Prints;
    ImageLeaves(h, image, text);
  }

  lemma ImageLeaves(h: Host, image: string, text: string)
    requires Prints(h, image, text)
    ensures Read(h, TEXT, Str("x")).Some? && Read(h, MAYBE_IMAGE, Str(image)).Some?
    ensures Read(h, MAYBE_TEXT, Null).Some? && Read(h, MAYBE_MONEY, Null).Some?
  {
  }

  lemma ImageCardRead(h: Host, image: string, text: string)
    requires Prints(h, image, text)
    ensures Read(h, CardKind(4), ImageCard(image)).Some?
    ensures ImageCard(image).Obj? && Get(ImageCard(image).fields, imageUrl) == Str(image)
  {
    hide Read, CardMember, ImageCardMember, CARD_KEYS;
    forall key ensures Read(h, CardMember(key), ImageCardMember(image, key)).Some? {
      ImageMemberRead(h, image, text, key);
    }
    var out := map key | key in CARD_KEYS :: Read(h, CardMember(key), ImageCardMember(image, key)).value;
    ReadBuilds(h, CardKind(4), ImageCard(image).fields, out);
    ImageListed(image);
  }

  lemma ImageListed(image: string)
    ensures imageUrl in CARD_KEYS && ImageCardMember(image, imageUrl) == Str(image)
  {
  }

  lemma OneItemRead(h: Host, max: nat, k: Kind, v: Js)
    requires max > 0 && Read(h, k, v).Some?
    ensures Read(h, List(max, k), Arr([v])).Some?
  {
    hide Accepts, Given, Passes;
    assert [v][1..] == [] && ReadItems(h, k, []) == Some([]);
    assert ReadItems(h, k, [v]).Some?;
  }

  /** Every image URL that prints longer than the limit makes a snapshot whose normal form is rejected. */
  lemma LongImageRejected(
      h: Host, expected: Option<Profile>, p: Profile, at: string, image: string, text: string)
    requires expected.Some? ==> expected.value == p
    requires Sane(h) && IsTimeText(h, at) && Prints(h, image, text) && |text| > MAX_TEXT
    ensures var v := Obj(Quiet(4, p, at, Null, Arr([ImageCard(image)])));
      && Normalise(h, expected, v).Some?
      && Normalise(h, expected, Normalise(h, expected, v).value) == None
  {
    hide Read, Quiet, CardKind, Normalise, ImageCard;
    var list := Arr([ImageCard(image)]);
    ImageCardRead(h, image, text);
    OneItemRead(h, 12, CardKind(4), ImageCard(image));
    QuietAccepted(h, expected, 4, p, at, list);
    QuietFigures(4, p, at, Null, list);
    var v := Quiet(4, p, at, Null, list);
    assert ImageCard(image) in list.items && !CardPrintsShort(h, ImageCard(image));
    FixedPoint(h, expected, Obj(v));
  }

  function Path(): string { "https://cards.example/" }

  /** A name of a hundred letters that a URL prints with six characters each. */
  function Umlauts(): string { Path() + seq(100, _ => '\U{00E4}') }

  function Escaped(): string { Path() + seq(600, i requires 0 <= i => "%C3%A4"[i % 6]) }

  function EscapingHost(): Host {
    Host(s => if s == Umlauts() || s == Escaped() then Some(Url(Escaped(), true)) else None,
         _ => Some(0), (v: Js) => if v.Str? then v.s else "")
  }

  /** A host as assumed, and a snapshot with such an image. */
  lemma LongImageHappens()
    ensures exists h: Host, v: Js ::
      && Sane(h) && Normalise(h, None, v).Some?
      && Normalise(h, None, Normalise(h, None, v).value) == None
  {
    hide Normalise, Quiet, ImageCard;
    var h := EscapingHost();
    LongImageRejected(h, None, Testnet, "now", Umlauts(), Escaped());
  }

  // ---------- a cycle that loses 79 digits ----------

  lemma SmallTexts()
    ensures MoneyText("0") && MoneyText("1") && Value("0") == 0 && Value("1") == 1
  {
    assert Print(0) == "0" && Print(1) == "1";
    ValueOfPrint(0);
    ValueOfPrint(1);
  }

  lemma TextOf(n: nat)
    requires n < Pow10(MAX_DIGITS)
    ensures MoneyText(Print(n)) && Digits(Print(n)) && Value(Print(n)) == n
  {
    hide Pow10, Value;
    ValueOfPrint(n);
    DigitCount(n, MAX_DIGITS);
  }

  /** The largest spend and one unit of costs. */
  function LossMember(key: Key): Js {
    if key.packSpendMicroUsdg? then Str(Print(Pow10(MAX_DIGITS) - 1))
    else if key.confirmedCostsMicroUsdg? then Str("1")
    else Str("0")
  }

  function Loss(): map<Key, Js> { map key | key in LEGACY_ROUND_KEYS :: LossMember(key) }

  lemma LossFigures()
    ensures WebRound(Loss(), Null).Some?
    ensures IsMoney(Get(Loss(), packSpendMicroUsdg)) && IsMoney(Get(Loss(), buybackMicroUsdg))
    ensures IsSigned(Get(Loss(), confirmedCostsMicroUsdg)) && !Absent(Get(Loss(), confirmedCostsMicroUsdg))
    ensures Result(Loss()) == 0 - Pow10(MAX_DIGITS)
  {
    hide Pow10, Print, Value, RoundOf, Canonical, MoneyText;
    SmallTexts();
    TextOf(Pow10(MAX_DIGITS) - 1);
    assert Loss().Keys == LEGACY_ROUND_KEYS;
  }

  /** A loss of ten to the `n`, which has one digit more than that. */
  predicate LosesPower(round: Js, n: nat) {
    && round.Obj?
    && var loss := Get(round.fields, cycleLossMicroUsdg);
    && loss == Str(Print(Pow10(n))) && |loss.s| == n + 1
  }

  /** The loss derived from it has 79 digits, one more than an amount may have. */
  lemma SeventyNineDigits()
    ensures WebRound(Loss(), Null).Some? && LosesPower(WebRound(Loss(), Null).value, MAX_DIGITS)
  {
    hide WebRound, Pow10, Value, Print, IsMoney, IsSigned, Canonical, LEGACY_ROUND_KEYS, Loss;
    LossFigures();
    Derived(Loss(), Null);
    var round := WebRound(Loss(), Null).value;
    var loss := Get(round.fields, cycleLossMicroUsdg);
    LossIs(Get(round.fields, cycleGainMicroUsdg), loss, MAX_DIGITS);
  }

  lemma LossIs(gain: Js, loss: Js, n: nat)
    requires n > 0 && GainLoss(gain, loss, 0 - Pow10(n))
    ensures loss == Str(Print(Pow10(n))) && |loss.s| == n + 1
  {
    hide Value;
    SmallTexts();
    PrintOfValue(loss.s);
    DigitCount(Pow10(n), n);
    DigitCount(Pow10(n), n + 1);
    PowStep(n);
  }

  function LossCycleMember(round: Js, key: Key): Js {
    if key.roundAccounting? then round
    else if key.reason? || key.updatedAt? || key.paidMicroUsdg? then Null
    else if key.payoutRecipientCount? then Num(0)
    else if key.transactions? then Arr([])
    else Str("x")
  }

  function LossCycle(round: Js): map<Key, Js> { map key | key in CYCLE_KEYS :: LossCycleMember(round, key) }

  lemma LossCycleMemberRead(h: Host, round: Js, key: Key)
    requires Reads(h, DERIVED_ROUND, round) && key in CYCLE_KEYS
    ensures Reads(h, CycleMember(key, 3), LossCycleMember(round, key))
  {
    hide Reads, DERIVED_ROUND, CYCLE_KEYS, NULL_TEXT, NULL_TIME, MONEY, COUNT, TEXT;
    LossCovered(key);
    LossLeaves(h);
    NullableReads(h, DERIVED_ROUND, round);
  }

  lemma LossLeaves(h: Host)
    ensures Reads(h, NULL_TEXT, Null) && Reads(h, NULL_TIME, Null) && Reads(h, Nullable(MONEY), Null)
    ensures Reads(h, COUNT, Num(0)) && Reads(h, TEXT, Str("x")) && Reads(h, List(24, Is(Transaction)), Arr([]))
  {
  }

  lemma LossCovered(key: Key)
    requires key in CYCLE_KEYS
    ensures || key.cycleId? || key.status? || key.reason? || key.updatedAt? || key.paidMicroUsdg?
            || key.payoutRecipientCount? || key.roundAccounting? || key.transactions?
  {
  }

  lemma LossListed(round: Js)
    ensures transactions in CYCLE_KEYS && roundAccounting in CYCLE_KEYS && paidMicroUsdg in CYCLE_KEYS
    ensures Get(LossCycle(round), transactions) == Arr([]) && Get(LossCycle(round), roundAccounting) == round
    ensures Get(LossCycle(round), paidMicroUsdg) == Null
  {
  }

  lemma LossCycleRead(h: Host, round: Js)
    requires Reads(h, DERIVED_ROUND, round)
    ensures Reads(h, Nullable(Cycle(3)), Obj(LossCycle(round)))
  {
    hide Reads, CycleMember, LossCycleMember, CYCLE_KEYS, DERIVED_ROUND;
    LossListed(round);
    forall key | key in CYCLE_KEYS ensures Reads(h, CycleMember(key, 3), LossCycle(round)[key]) {
      LossCycleMemberRead(h, round, key);
    }
    RecordReads(h, Cycle(3), LossCycle(round));
    NullableReads(h, Cycle(3), Obj(LossCycle(round)));
  }

  lemma LossWithRound(before: Js, after: Js)
    ensures LossCycle(before)[roundAccounting := after] == LossCycle(after)
  {
    hide CYCLE_KEYS;
    LossListed(before);
  }

  /** A version 3 snapshot that is accepted and comes out with that loss is rejected as version 4. */
  lemma LongLossRejected(h: Host, expected: Option<Profile>, p: Profile, at: string)
    requires expected.Some? ==> expected.value == p
    requires Sane(h) && IsTimeText(h, at)
    ensures var v := Obj(Quiet(3, p, at, Obj(LossCycle(Obj(Loss()))), Arr([])));
      && Normalise(h, expected, v).Some?
      && Normalise(h, expected, Normalise(h, expected, v).value) == None
  {
    hide Read, Quiet, CardKind, Cycle, Snapshot, Loss, LossCycle, WebRound, Result, ProfileName, IsProfile, ReadProfile,
      IsMoney, IsSigned, Pow10;
    var cycle, list := Obj(LossCycle(Obj(Loss()))), Arr([]);
    LossFigures();
    LossListed(Obj(Loss()));
    var round := WebRound(Loss(), Null).value;
    LegacyRoundReads(h, Loss(), Null);
    LossCycleRead(h, round);
    ReadsIsRead(h);
    NothingRead(h, CardKind(3));
    QuietFigures(3, p, at, cycle, list);
    ProfileIs(p);
    LossWithRound(Obj(Loss()), round);
    QuietWithCycle(3, p, at, cycle, list, Obj(LossCycle(round)));
    var v := Quiet(3, p, at, cycle, list);
    assert Upgraded(v) == Some(Quiet(3, p, at, Obj(LossCycle(round)), list));
    QuietRead(h, 3, p, at, Obj(LossCycle(round)), list);
    assert !ResultInRange(Get(v, latestCycle));
    FixedPoint(h, expected, Obj(v));
  }

  lemma NothingRead(h: Host, k: Kind)
    ensures Read(h, List(12, k), Arr([])).Some?
  {
  }
}

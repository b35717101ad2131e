/** Statuses that are accepted and whose normal form is not, and the replies made of such bodies. */
module StatusExamples {
  import CommunitySnapshot
  import opened CycleProjection
  import opened CycleStatus
  import opened PublicCards
  import opened Renormalise
  import opened Schema
  import Shared = SharedLoads
  import Snapshots = SnapshotExamples
  import opened Tables
  import opened Wrappers

  // ---------- a cycle with one card ----------

  function ShownCard(image: string): Js { Obj(map key | key in CARD_KEYS :: Snapshots.ImageCardMember(image, key)) }

  lemma ShownCardRead(h: Host, image: string, text: string)
    requires Snapshots.Prints(h, image, text)
    ensures Read(h, CardKind(3), ShownCard(image)).Some?
    ensures ShownCard(image).Obj? && Get(ShownCard(image).fields, imageUrl) == Str(image)
  {
    hide Read, CardMember, Snapshots.ImageCardMember, CARD_KEYS;
    forall key ensures Read(h, CardMember(key), Snapshots.ImageCardMember(image, key)).Some? {
      Snapshots.ImageMemberRead(h, image, text, key);
    }
    var out := map key | key in CARD_KEYS :: Read(h, CardMember(key), Snapshots.ImageCardMember(image, key)).value;
    ReadBuilds(h, CardKind(3), ShownCard(image).fields, out);
    ImageListed();
    Snapshots.ImageListed(image);
  }

  function ShownMember(image: string, key: Key): Js {
    if key.cycleId? || key.status? then Str("x")
    else if key.plannedBoosters? || key.openedBoosters? then Num(1)
    else if key.actions? then Arr([])
    else if key.cards? then Arr([ShownCard(image)])
    else Null
  }

  function ShownCycle(image: string): map<Key, Js> { map key | key in REQUIRED_KEYS :: ShownMember(image, key) }

  lemma Covered(key: Key)
    requires key in REQUIRED_KEYS
    ensures || key.cycleId? || key.status? || key.selectedPackId? || key.maxBoostersPerCycle? || key.plannedBoosters?
            || key.openedBoosters? || key.actions? || key.cards? || key.returnedMicroUsdg? || key.rewardStatus?
            || key.roundAccounting?
  {
  }

  lemma ShownLeaves(h: Host, side: Side)
    ensures Reads(h, TEXT, Str("x")) && Reads(h, NULL_TEXT, Null) && Reads(h, Nullable(MONEY), Null)
    ensures Reads(h, COUNT, Num(1)) && Reads(h, Nullable(Is(Positive)), Null)
    ensures Reads(h, List(128, Action(side)), Arr([])) && Reads(h, RoundAccounting(side, 3), Null)
  {
    hide Action, TypedRound, PackRound;
    EmptyReads(h, 128, Action(side));
  }

  lemma EmptyReads(h: Host, max: nat, k: Kind)
    ensures Reads(h, List(max, k), Arr([]))
  {
    assert ReadItems(h, k, []) == Some([]);
  }

  /** All but the cards is read as it is. */
  lemma ShownLeafReads(h: Host, side: Side, image: string, key: Key)
    requires key in REQUIRED_KEYS && !key.cards?
    ensures Reads(h, CycleMember(key, side, 3), ShownMember(image, key))
  {
    hide Read, Reads, Action, CardKind, RoundAccounting, REQUIRED_KEYS, TEXT, NULL_TEXT, COUNT, MONEY, ShownCard;
    Covered(key);
    ShownLeaves(h, side);
  }

  lemma ShownCardsRead(h: Host, image: string, text: string)
    requires Snapshots.Prints(h, image, text)
    ensures Read(h, List(60, CardKind(3)), Arr([ShownCard(image)])).Some?
  {
    hide Read, CardKind, ShownCard;
    ShownCardRead(h, image, text);
    Snapshots.OneItemRead(h, 60, CardKind(3), ShownCard(image));
  }

  lemma ShownMemberRead(h: Host, side: Side, image: string, text: string, key: Key)
    requires Snapshots.Prints(h, image, text) && key in REQUIRED_KEYS
    ensures Read(h, CycleMember(key, side, 3), ShownMember(image, key)).Some?
    ensures !key.cards? ==> Reads(h, CycleMember(key, side, 3), ShownMember(image, key))
  {
    hide Read, CardKind, CycleMember, ShownMember, REQUIRED_KEYS, ShownCard;
    if key.cards? {
      ShownListed(image, side);
      ShownCardsRead(h, image, text);
    } else {
      ShownLeafReads(h, side, image, key);
    }
  }

  lemma ShownListed(image: string, side: Side)
    ensures openedBoosters in REQUIRED_KEYS && cards in REQUIRED_KEYS && roundAccounting in REQUIRED_KEYS
    ensures ShownMember(image, openedBoosters) == Num(1) && ShownMember(image, cards) == Arr([ShownCard(image)])
    ensures ShownMember(image, roundAccounting) == Null
    ensures CycleMember(cards, side, 3) == List(60, CardKind(3))
  {
  }

  lemma OneItemMore(h: Host, max: nat, k: Kind, v: Js)
    requires Read(h, List(max, k), Arr([v])).Some?
    ensures var out := Read(h, List(max, k), Arr([v])).value; out.Arr? && |out.items| == 1
  {
    hide Accepts, Given, Passes;
    ItemsRead(h, k, [v]);
  }

  lemma ShownKinds(side: Side)
    ensures forall key | key in REQUIRED_KEYS ::
      key in CycleMembers(side, 3) && CycleMembers(side, 3)[key].kind == CycleMember(key, side, 3)
  {
    hide CycleMember, REQUIRED_KEYS, OPTIONAL_KEYS;
  }

  lemma ShownBuilt(side: Side, source: map<Key, Js>)
    requires source.Keys == REQUIRED_KEYS
    ensures REQUIRED_KEYS <= CycleMembers(side, 3).Keys
    ensures forall key: Key :: key in REQUIRED_KEYS <==> Built(CycleMembers(side, 3), source, key)
  {
    hide CycleMembers, AlwaysKeys, REQUIRED_KEYS, OPTIONAL_KEYS;
    MembersShape(side, 3);
  }

  lemma ShownCycleRead(h: Host, side: Side, image: string, text: string)
    requires Snapshots.Prints(h, image, text)
    ensures Read(h, Nullable(Cycle(side, 3)), Obj(ShownCycle(image))).Some?
  {
    hide Read, CycleMember, ShownMember, REQUIRED_KEYS, OPTIONAL_KEYS, CycleMembers, Built, CardKind, ShownCard;
    var source := ShownCycle(image);
    MembersShape(side, 3);
    ShownKinds(side);
    ShownBuilt(side, source);
    forall key | key in REQUIRED_KEYS
      ensures Read(h, CycleMember(key, side, 3), source[key]).Some?
      ensures !key.cards? ==> Reads(h, CycleMember(key, side, 3), source[key])
    {
      ShownMemberRead(h, side, image, text, key);
    }
    var out := map key | key in REQUIRED_KEYS :: Read(h, CycleMember(key, side, 3), source[key]).value;
    ShownListed(image, side);
    OneItemMore(h, 60, CardKind(3), ShownCard(image));
    ReadBuilds(h, Cycle(side, 3), source, out);
    SomeAccepted(h, Cycle(side, 3), Obj(source));
  }

  lemma SomeAccepted(h: Host, k: Kind, v: Js)
    requires Read(h, k, v).Some?
    ensures Read(h, Nullable(k), v).Some?
  {
  }

  // ---------- a status around it ----------

  /** At every moment the clock shows the same. */
  function Stopped(at: string): Clock { Clock(_ => at, _ => None) }

  function Around(p: Profile, at: string, projected: Js): map<Key, Js> {
    StatusOf(Stopped(at), 0, 0, p, "active", projected)
  }

  lemma AroundLeaves(h: Host, side: Side, p: Profile, at: string)
    requires Sane(h) && Snapshots.IsTimeText(h, at)
    ensures Reads(h, Is(Emit(Num(3), Num(3))), Num(3))
    ensures Reads(h, ExecutionState(side), Str("active")) && Reads(h, PAUSED, Null)
    ensures Reads(h, Is(Time), Str(at)) && Reads(h, COUNT, Num(CountdownSeconds(0, 0)))
  {
    assert h.text(Str("active")) == "active";
  }

  lemma AroundMemberReads(h: Host, side: Side, p: Profile, at: string, projected: Js, key: Key)
    requires Sane(h) && Snapshots.IsTimeText(h, at) && key in STATUS_KEYS && key != cycle
    ensures Reads(h, StatusMember(key, side, 3, p), StatusFigure(Stopped(at), 0, 0, p, "active", projected, key))
  {
    hide Reads, Read, Cycle, STATUS_KEYS, ExecutionState, PAUSED, COUNT, ProfileName, NetworkOf, SCHEDULER,
      HeldPosition, CountdownSeconds, Sane;
    StatusKeysCovered(key);
    AroundLeaves(h, side, p, at);
    HeaderReads(h, p);
    assert "active" != "paused" by { assert "active"[0] != "paused"[0]; }
  }

  lemma HeaderReads(h: Host, p: Profile)
    ensures Reads(h, Is(Emit(ProfileName(p), ProfileName(p))), ProfileName(p))
    ensures Reads(h, Is(Emit(NetworkOf(p), NetworkOf(p))), NetworkOf(p))
  {
    hide ProfileName, NetworkOf;
  }

  lemma ThirdShape(side: Side, p: Profile, source: map<Key, Js>)
    requires source.Keys == STATUS_KEYS
    ensures var k := Status(side, 3, p);
      && k.Record? && k.members.Keys == k.allowed == k.required == STATUS_KEYS
      && k.checks == [Countdown, PausedReason]
      && forall key: Key :: key in STATUS_KEYS <==> Built(k.members, source, key)
  {
    hide StatusMember, STATUS_KEYS;
    assert StatusKeys(3) == STATUS_KEYS;
  }

  lemma ThirdMembers(side: Side, p: Profile)
    ensures forall key | key in STATUS_KEYS ::
      key in Status(side, 3, p).members && Status(side, 3, p).members[key].kind == StatusMember(key, side, 3, p)
  {
    hide StatusMember, STATUS_KEYS;
    assert StatusKeys(3) == STATUS_KEYS;
  }

  lemma AroundKeys(p: Profile, at: string, projected: Js)
    ensures Around(p, at, projected).Keys == STATUS_KEYS
  {
    hide STATUS_KEYS, StatusFigure;
  }

  /** Two equal times count down from zero, and what is active needs no reason. */
  lemma AtOnce(h: Host, at: string, out: map<Key, Js>)
    requires Get(out, generatedAt) == Str(at) == Get(out, nextCycleAt) && Get(out, countdownSeconds) == Num(0)
    requires Get(out, executionState) == Str("active") && Get(out, executionReason) == Null
    ensures Passes(h, Countdown, out) && Passes(h, PausedReason, out)
  {
    assert "active" != "paused" by { assert "active"[0] != "paused"[0]; }
  }

  lemma AroundFigures(p: Profile, at: string, projected: Js)
    ensures var s := Around(p, at, projected);
      && Get(s, generatedAt) == Str(at) == Get(s, nextCycleAt) && Get(s, countdownSeconds) == Num(0)
      && Get(s, executionState) == Str("active") && Get(s, executionReason) == Null
  {
    hide StatusOf;
    StatusFigures(Stopped(at), 0, 0, p, "active", projected);
    assert "active" != "paused" by { assert "active"[0] != "paused"[0]; }
  }

  predicate AgreeButCycle(a: map<Key, Js>, b: map<Key, Js>) {
    a.Keys == b.Keys && forall key | key in a && key != cycle :: a[key] == b[key]
  }

  lemma SameAt(a: map<Key, Js>, b: map<Key, Js>, key: Key)
    requires AgreeButCycle(a, b) && key != cycle
    ensures Get(a, key) == Get(b, key)
  {
  }

  lemma AroundChecks(h: Host, p: Profile, at: string, projected: Js, out: map<Key, Js>)
    requires AgreeButCycle(out, Around(p, at, projected))
    ensures Passes(h, Countdown, out) && Passes(h, PausedReason, out)
  {
    hide Around, Get, Passes, AgreeButCycle;
    var s := Around(p, at, projected);
    AroundFigures(p, at, projected);
    SameAt(out, s, generatedAt);
    SameAt(out, s, nextCycleAt);
    SameAt(out, s, countdownSeconds);
    SameAt(out, s, executionState);
    SameAt(out, s, executionReason);
    AtOnce(h, at, out);
  }

  lemma AroundRead(h: Host, side: Side, p: Profile, at: string, projected: Js)
    requires Sane(h) && Snapshots.IsTimeText(h, at) && Read(h, Nullable(Cycle(side, 3)), projected).Some?
    ensures Read(h, Status(side, 3, p), Obj(Around(p, at, projected))).Some?
  {
    hide Read, Status, StatusMember, StatusOf, STATUS_KEYS, Cycle, Passes, Sane, Built;
    var source := Around(p, at, projected);
    AroundKeys(p, at, projected);
    ThirdShape(side, p, source);
    ThirdMembers(side, p);
    forall key | key in STATUS_KEYS
      ensures Read(h, StatusMember(key, side, 3, p), source[key]).Some?
      ensures key != cycle ==> Reads(h, StatusMember(key, side, 3, p), source[key])
    {
      AroundMemberRead(h, side, p, at, projected, key);
    }
    var out := map key | key in STATUS_KEYS :: Read(h, StatusMember(key, side, 3, p), source[key]).value;
    AroundChecks(h, p, at, projected, out);
    ReadBuilds(h, Status(side, 3, p), source, out);
  }

  lemma AroundMemberRead(h: Host, side: Side, p: Profile, at: string, projected: Js, key: Key)
    requires Sane(h) && Snapshots.IsTimeText(h, at) && Read(h, Nullable(Cycle(side, 3)), projected).Some?
    requires key in STATUS_KEYS && key in Around(p, at, projected)
    ensures Read(h, StatusMember(key, side, 3, p), Around(p, at, projected)[key]).Some?
    ensures key != cycle ==> Reads(h, StatusMember(key, side, 3, p), Around(p, at, projected)[key])
  {
    hide Read, StatusMember, StatusFigure, STATUS_KEYS, Cycle, Sane;
    if key == cycle {
      CycleListed(side, 3, p);
      StatusFigures(Stopped(at), 0, 0, p, "active", projected);
    } else {
      AroundMemberReads(h, side, p, at, projected, key);
    }
  }

  lemma AroundIsThird(h: Host, side: Side, expected: Option<Profile>, p: Profile, at: string, projected: Js)
    requires expected.Some? ==> expected.value == p
    ensures Normalise(h, side, expected, Obj(Around(p, at, projected)))
      == Read(h, Status(side, 3, p), Obj(Around(p, at, projected)))
  {
    hide Read, Status, StatusOf, IsProfile, ReadProfile, ProfileName, Idle, IdleOk;
    StatusFigures(Stopped(at), 0, 0, p, "active", projected);
    ProfileRead(p);
  }

  // ---------- an image whose URL grows ----------

  function LongStatus(p: Profile, at: string, image: string): Js { Obj(Around(p, at, Obj(ShownCycle(image)))) }

  lemma LongStatusFigures(h: Host, p: Profile, at: string, image: string, text: string)
    requires Snapshots.Prints(h, image, text) && |text| > MAX_TEXT
    ensures !Renormalisable(h, LongStatus(p, at, image).fields)
    ensures VersionOf(LongStatus(p, at, image).fields) == 3
  {
    hide StatusOf, ShownMember, REQUIRED_KEYS, ShownCard, ProfileName;
    StatusFigures(Stopped(at), 0, 0, p, "active", Obj(ShownCycle(image)));
    ShownListed(image, Domain);
    ShownCardRead(h, image, text);
    var list := Get(ShownCycle(image), cards);
    assert ShownCard(image) in list.items && !CardPrintsShort(h, ShownCard(image));
  }

  /**
    Every image URL that prints longer than the limit makes a status that both readers accept, with
    or without the profile being named, and whose normal form they reject.
   */
  lemma LongImageRejected(
      h: Host, side: Side, expected: Option<Profile>, p: Profile, at: string, image: string, text: string)
    requires Sane(h) && Snapshots.IsTimeText(h, at) && Snapshots.Prints(h, image, text) && |text| > MAX_TEXT
    requires expected.Some? ==> expected.value == p
    ensures var v := LongStatus(p, at, image);
      && Normalise(h, side, expected, v).Some?
      && Normalise(h, side, expected, Normalise(h, side, expected, v).value) == None
  {
    hide Read, Normalise, StatusOf, ShownCycle, Renormalisable, Sane;
    ShownCycleRead(h, side, image, text);
    AroundRead(h, side, p, at, Obj(ShownCycle(image)));
    AroundIsThird(h, side, expected, p, at, Obj(ShownCycle(image)));
    LongStatusFigures(h, p, at, image, text);
    FixedPoint(h, side, expected, LongStatus(p, at, image));
  }

  /** The web reader rejects what the domain's normaliser makes of it, although it has no accounting. */
  lemma LongImageCrosses(h: Host, p: Profile, at: string, image: string, text: string)
    requires Sane(h) && Snapshots.IsTimeText(h, at) && Snapshots.Prints(h, image, text) && |text| > MAX_TEXT
    ensures var w := Normalise(h, Domain, None, LongStatus(p, at, image));
      && w.Some? && w.value.Obj? && NoAccounting(w.value.fields)
      && Normalise(h, Web, None, w.value) == None
  {
    hide Read, Normalise, StatusOf, ShownCycle, Renormalisable, Sane, NoAccounting;
    LongImageRejected(h, Domain, None, p, at, image, text);
    LongStatusFigures(h, p, at, image, text);
    DomainToWeb(h, LongStatus(p, at, image));
    NothingToAccount(h, p, at, image, text);
  }

  lemma NothingToAccount(h: Host, p: Profile, at: string, image: string, text: string)
    requires Sane(h) && Snapshots.IsTimeText(h, at) && Snapshots.Prints(h, image, text)
    requires Normalise(h, Domain, None, LongStatus(p, at, image)).Some?
    ensures var w := Normalise(h, Domain, None, LongStatus(p, at, image)).value; w.Obj? && NoAccounting(w.fields)
  {
    hide Read, Normalise, StatusOf, ShownMember, ShownCard, Sane, StatusMember, Cycle, REQUIRED_KEYS, STATUS_KEYS;
    var source := Around(p, at, Obj(ShownCycle(image)));
    AroundIsThird(h, Domain, None, p, at, Obj(ShownCycle(image)));
    StatusFigures(Stopped(at), 0, 0, p, "active", Obj(ShownCycle(image)));
    Cyclic(3, p);
    MemberRead(h, Status(Domain, 3, p), source, cycle);
    SomeRead(h, Cycle(Domain, 3), Obj(ShownCycle(image)));
    AccountingListed();
    MemberRead(h, Cycle(Domain, 3), ShownCycle(image), roundAccounting);
    ShownListed(image, Domain);
    RoundRead(h, Null);
  }

  // ---------- replies ----------

  /** A cache lookup that gave a body is answered with what the normaliser makes of it. */
  lemma CachedReplies(normal: Shared.Normaliser, p: Profile, url: string, body: Js)
    requires normal(p, body).Some?
    ensures var events := [Shared.Cached(p, url, body)];
      && Shared.Possible(normal, Shared.NOTHING_YET, events)
      && Shared.Reached(normal, events).clients == [Shared.Answered(p, Shared.Success(normal(p, body).value))]
  {
    var e := Shared.Cached(p, url, body);
    var after := Shared.Next(normal, Shared.NOTHING_YET, e);
    assert [e][0] == e && [e][1..] == [];
    assert Shared.Possible(normal, after, []) && Shared.Run(normal, after, []) == after;
    assert after.clients == [] + [Shared.Answered(p, Shared.Success(normal(p, body).value))];
  }

  /** The status proxy answers with success, and the dashboard rejects the answer. */
  lemma LongStatusReply(h: Host, p: Profile, url: string, at: string, image: string, text: string)
    requires Sane(h) && Snapshots.IsTimeText(h, at) && Snapshots.Prints(h, image, text) && |text| > MAX_TEXT
    ensures var events := [Shared.Cached(p, url, LongStatus(p, at, image))];
      && Shared.Possible(Shared.Status(h), Shared.NOTHING_YET, events)
      && var clients := Shared.Reached(Shared.Status(h), events).clients;
      && |clients| == 1 && clients[0].Answered? && clients[0].reply.Success?
      && Normalise(h, Web, Some(p), clients[0].reply.value) == None
  {
    hide Normalise, LongStatus, Sane, Shared.Possible, Shared.Reached;
    LongImageRejected(h, Web, Some(p), p, at, image, text);
    CachedReplies(Shared.Status(h), p, url, LongStatus(p, at, image));
  }

  /** So does the community proxy with a card of such an image. */
  lemma LongSnapshotReply(h: Host, p: Profile, url: string, at: string, image: string, text: string)
    requires Sane(h) && Snapshots.IsTimeText(h, at) && Snapshots.Prints(h, image, text) && |text| > MAX_TEXT
    ensures var body := Obj(Snapshots.Quiet(4, p, at, Null, Arr([Snapshots.ImageCard(image)])));
      var events := [Shared.Cached(p, url, body)];
      && Shared.Possible(Shared.Community(h), Shared.NOTHING_YET, events)
      && var clients := Shared.Reached(Shared.Community(h), events).clients;
      && |clients| == 1 && clients[0].Answered? && clients[0].reply.Success?
      && CommunitySnapshot.Normalise(h, Some(p), clients[0].reply.value) == None
  {
    hide CommunitySnapshot.Normalise, Snapshots.Quiet, Snapshots.ImageCard, Sane, Shared.Possible, Shared.Reached;
    Snapshots.LongImageRejected(h, Some(p), p, at, image, text);
    CachedReplies(
      Shared.Community(h), p, url, Obj(Snapshots.Quiet(4, p, at, Null, Arr([Snapshots.ImageCard(image)]))));
  }

  // ---------- on a host ----------

  lemma EscapingIsSane()
    ensures Sane(Snapshots.EscapingHost()) && Snapshots.IsTimeText(Snapshots.EscapingHost(), "now")
    ensures Snapshots.Prints(Snapshots.EscapingHost(), Snapshots.Umlauts(), Snapshots.Escaped())
    ensures |Snapshots.Escaped()| > MAX_TEXT
  {
  }

  /** A host as assumed, and a status with such an image for each reader. */
  lemma LongImageHappens(side: Side)
    ensures exists h: Host, v: Js ::
      && Sane(h) && Normalise(h, side, None, v).Some?
      && Normalise(h, side, None, Normalise(h, side, None, v).value) == None
  {
    hide Normalise, LongStatus, Sane, Snapshots.EscapingHost;
    EscapingIsSane();
    LongImageRejected(
      Snapshots.EscapingHost(), side, None, Testnet, "now", Snapshots.Umlauts(), Snapshots.Escaped());
  }
}

/** The records and leaves that the public readers have in common, and the images on their cards. */
module PublicCards {
  import opened Renormalise
  import opened Schema
  import opened Tables

  const NULL_TIME := Nullable(Is(Time))
  const COUNT := Is(Count)
  const NULL_COUNT := Nullable(Is(Count))
  const MAYBE_TEXT := Maybe(Is(Text))
  const MAYBE_IMAGE := Maybe(Is(ImageUrl))

  function CardMember(key: Key): Kind {
    if key.cycleId? || key.productId? || key.rarity? then TEXT
    else if key.imageUrl? then MAYBE_IMAGE
    else if key.packPriceMicroUsdg? || key.buybackMicroUsdg? then MAYBE_MONEY
    else MAYBE_TEXT
  }

  function CardRecord(keys: set<Key>, allowed: set<Key>, required: set<Key>): Kind {
    Record(map key | key in keys :: Req(CardMember(key)), allowed, required, [])
  }

  /** A held position; before it was made anonymous it carried two ids. */
  function HeldPosition(named: bool): Kind {
    var keys := if named then {positionId, cycleId, reason, ageSeconds, cycleState}
                else {reason, ageSeconds, cycleState};
    Exact(map key | key in keys :: Req(HeldMember(key)), [])
  }

  function HeldMember(key: Key): Kind {
    if key.reason? then Is(UpperReason) else if key.ageSeconds? then COUNT else TEXT
  }

  // ---------- steady parts ----------

  /** The same kind in both versions, and nothing in it can grow. */
  lemma SteadyFollows(k: Kind)
    requires Steady(k)
    ensures Follows(k, k) && Plain(k, k)
  {
    RegularFollows(k);
  }

  lemma LeavesHere()
    ensures Steady(NULL_TIME) && Steady(COUNT) && Steady(NULL_COUNT) && Steady(MAYBE_TEXT)
    ensures Steady(Is(Time)) && Steady(Nullable(MONEY))
    ensures Regular(MAYBE_IMAGE) && Regular(Nullable(Is(ImageUrl)))
    ensures Steady(Is(OneOf({"observed", "finalized"})))
  {
  }

  lemma OtherLeaves()
    ensures Steady(Is(Boolean)) && Steady(Is(UpperReason)) && Steady(List(24, Is(Transaction)))
    ensures Steady(Is(RecipientLimit)) && Steady(Nullable(Is(RecipientLimit)))
  {
  }

  lemma HeldSteady(named: bool)
    ensures Steady(HeldPosition(named)) && Steady(List(1000, HeldPosition(named)))
  {
    hide Steady, Exact, TEXT, COUNT;
    LeavesSteady(Text);
    LeavesHere();
    OtherLeaves();
    var keys := if named then {positionId, cycleId, reason, ageSeconds, cycleState}
                else {reason, ageSeconds, cycleState};
    ExactSteady(map key | key in keys :: Req(HeldMember(key)), []);
    ListSteady(1000, HeldPosition(named));
  }

  lemma ListSteady(max: nat, k: Kind)
    requires Steady(k)
    ensures Steady(List(max, k))
  {
  }

  // ---------- images ----------

  predicate ShortText(v: Js) { v.Str? ==> 1 <= |v.s| <= MAX_TEXT }

  predicate ShortImage(card: Js) { card.Obj? ==> ShortText(Get(card.fields, imageUrl)) }

  predicate ShortCards(list: Js) { list.Arr? ==> forall card | card in list.items :: ShortImage(card) }

  /** The printed form of an image URL is short enough to be read again. */
  predicate PrintsShort(h: Host, v: Js) {
    v.Str? && h.url(v.s).Some? ==> 1 <= |h.url(v.s).value.text| <= MAX_TEXT
  }

  predicate CardPrintsShort(h: Host, card: Js) {
    card.Obj? ==> PrintsShort(h, Get(card.fields, imageUrl))
  }

  predicate ImagesPrintShort(h: Host, list: Js) {
    list.Arr? ==> forall card: Js | card in list.items :: CardPrintsShort(h, card)
  }

  lemma ImageFits(v: Js)
    ensures Fits(MAYBE_IMAGE, MAYBE_IMAGE, v) <==> ShortText(v)
    ensures Fits(Nullable(Is(ImageUrl)), Nullable(Is(ImageUrl)), v) <==> ShortText(v)
  {
  }

  lemma ImageRead(h: Host, v: Js)
    ensures Read(h, MAYBE_IMAGE, v).Some? ==> (ShortText(Read(h, MAYBE_IMAGE, v).value) <==> PrintsShort(h, v))
    ensures Read(h, Nullable(Is(ImageUrl)), v).Some? ==>
      (ShortText(Read(h, Nullable(Is(ImageUrl)), v).value) <==> PrintsShort(h, v))
  {
  }

  lemma CardMemberRegular(key: Key)
    ensures Regular(CardMember(key))
    ensures !key.imageUrl? ==> Plain(CardMember(key), CardMember(key))
  {
    hide Regular, Plain, MAYBE_IMAGE, MAYBE_MONEY, MAYBE_TEXT, TEXT;
    LeavesSteady(Text);
    LeavesHere();
  }

  lemma CardRecordFollows(keys: set<Key>, a: Kind, b: Kind)
    requires a.Record? && a == CardRecord(keys, a.allowed, a.required)
    requires b.Record? && b == CardRecord(keys, b.allowed, b.required) && b.required <= keys <= b.allowed
    ensures Follows(a, b)
  {
    hide Follows, Regular, CardMember;
    forall key ensures Follows(CardMember(key), CardMember(key)) {
      CardMemberRegular(key);
      RegularFollows(CardMember(key));
    }
    RecordFollows(a, b);
  }

  lemma CardRecordFits(keys: set<Key>, a: Kind, b: Kind, card: Js)
    requires a.Record? && a == CardRecord(keys, a.allowed, a.required)
    requires b.Record? && b == CardRecord(keys, b.allowed, b.required) && imageUrl in keys
    ensures Fits(a, b, card) <==> ShortImage(card)
  {
    hide Fits, Plain, ShortText, CardMember;
    if card.Obj? {
      ImageMember();
      ImageFits(Get(card.fields, imageUrl));
      forall key | key != imageUrl ensures Plain(CardMember(key), CardMember(key)) {
        CardMemberRegular(key);
      }
      FitsAt(a, b, card.fields, {imageUrl});
      AbsentIsShort();
    } else {
      NonRecordFits(a, b, card);
    }
  }

  lemma ImageMember()
    ensures CardMember(imageUrl) == MAYBE_IMAGE
  {
  }

  lemma AbsentIsShort()
    ensures ShortText(Undefined) && ShortCards(Undefined) && ShortText(Null) && ShortCards(Null)
  {
  }

  lemma CardRecordRead(h: Host, keys: set<Key>, a: Kind, card: Js)
    requires a.Record? && a == CardRecord(keys, a.allowed, a.required) && imageUrl in keys
    requires Read(h, a, card).Some?
    ensures ShortImage(Read(h, a, card).value) <==> CardPrintsShort(h, card)
  {
    hide Accepts, Given, Passes, ReadItems, CardMember, ShortText, PrintsShort;
    ImageMember();
    ImageRead(h, Get(card.fields, imageUrl));
    MemberRead(h, a, card.fields, imageUrl);
  }

  lemma CardListFits(max: nat, a: Kind, b: Kind, list: Js)
    requires forall card: Js :: Fits(a, b, card) <==> ShortImage(card)
    ensures Fits(List(max, a), List(max, b), list) <==> ShortCards(list)
  {
    hide ShortImage;
  }

  lemma CardListRead(h: Host, max: nat, a: Kind, list: Js)
    requires forall card: Js | Read(h, a, card).Some? ::
      ShortImage(Read(h, a, card).value) <==> CardPrintsShort(h, card)
    requires Read(h, List(max, a), list).Some?
    ensures ShortCards(Read(h, List(max, a), list).value) <==> ImagesPrintShort(h, list)
  {
    hide ShortImage, CardPrintsShort, Accepts, Given, Passes;
    ItemsRead(h, a, list.items);
    var out := ReadItems(h, a, list.items).value;
    assert forall i | 0 <= i < |out| :: out[i] in out && list.items[i] in list.items;
    assert forall i | 0 <= i < |out| :: ShortImage(out[i]) <==> CardPrintsShort(h, list.items[i]);
  }
}

/** The inventory deck: cards by value, and the fan of cards shown behind the active one. */
module CollectorDeck {

  /** The insured value may be missing, and as a JavaScript number it may not be finite. */
  datatype Insured = Missing | NonFinite | Worth(usd: real)

  /** `rest` stands for the members that neither ordering nor selecting looks at. */
  datatype Card = Card(id: string, imageUrl: string, insured: Insured, rest: seq<string>)

  datatype Presentation = Empty | Presented(activeCard: Card, backgroundCards: seq<Card>)

  // ---------- order ----------

  /** Valued: a finite amount above zero.  The others all rank below. */
  predicate Valued(c: Card) { c.insured.Worth? && c.insured.usd > 0.0 }

  predicate RanksAbove(a: Card, b: Card) {
    Valued(a) && (Valued(b) ==> a.insured.usd > b.insured.usd)
  }

  predicate SameRank(a: Card, b: Card) { !RanksAbove(a, b) && !RanksAbove(b, a) }

  /** A card and its place in the list. */
  datatype Placed = Placed(card: Card, index: nat)

  /** The comparator is negative. */
  predicate Before(a: Placed, b: Placed) {
    RanksAbove(a.card, b.card) || (SameRank(a.card, b.card) && a.index < b.index)
  }

  predicate Ordered(s: seq<Placed>) { forall i, j | 0 <= i < j < |s| :: Before(s[i], s[j]) }

  function Decorated(cards: seq<Card>): (s: seq<Placed>)
    ensures |s| == |cards| && forall i | 0 <= i < |s| :: s[i] == Placed(cards[i], i)
  {
    seq(|cards|, i requires 0 <= i < |cards| => Placed(cards[i], i))
  }

  function Insert(s: seq<Placed>, p: Placed): (r: seq<Placed>)
    ensures multiset(r) == multiset(s) + multiset{p} && |r| == |s| + 1
  {
    if s == [] then [p]
    else if Before(p, s[0]) then
      assert s == [s[0]] + s[1..];
      [p] + s
    else
      assert s == [s[0]] + s[1..];
      [s[0]] + Insert(s[1..], p)
  }

  function Sort(s: seq<Placed>): (r: seq<Placed>)
    ensures multiset(r) == multiset(s) && |r| == |s|
  {
    if s == [] then []
    else
      assert s == s[..|s| - 1] + [s[|s| - 1]];
      Insert(Sort(s[..|s| - 1]), s[|s| - 1])
  }

  function Cards(s: seq<Placed>): (r: seq<Card>)
    ensures |r| == |s| && forall i | 0 <= i < |s| :: r[i] == s[i].card
  {
    seq(|s|, i requires 0 <= i < |s| => s[i].card)
  }

  function PrioritizeCollectorCards(cards: seq<Card>): seq<Card> { Cards(Sort(Decorated(cards))) }

  lemma BeforeTransitive(a: Placed, b: Placed, c: Placed)
    requires Before(a, b) && Before(b, c)
    ensures Before(a, c)
  {
  }

  lemma {:induction false} InsertOrdered(s: seq<Placed>, p: Placed)
    requires Ordered(s) && forall q | q in s :: q.index != p.index
    ensures Ordered(Insert(s, p))
  {
    hide Before;
    if s != [] {
      var r := Insert(s, p);
      assert s[0] in s;
      BeforeTotal(p, s[0]);
      if Before(p, s[0]) {
        forall j | 0 <= j < |s| ensures Before(p, s[j]) {
          if j > 0 { BeforeTransitive(p, s[0], s[j]); }
        }
      } else {
        InsertOrdered(s[1..], p);
        var rest := Insert(s[1..], p);
        forall q | q in rest ensures Before(s[0], q) {
          assert q in multiset(rest);
          if q != p {
            assert q in multiset(s[1..]);
            assert q in s[1..];
          }
        }
        forall j | 0 < j < |r| ensures Before(r[0], r[j]) { assert r[j] in rest; }
      }
    }
  }

  lemma BeforeTotal(a: Placed, b: Placed)
    requires a.index != b.index
    ensures Before(a, b) <==> !Before(b, a)
  {
  }

  lemma {:induction false} SortOrdered(s: seq<Placed>)
    requires forall i, j | 0 <= i < j < |s| :: s[i].index != s[j].index
    ensures Ordered(Sort(s))
  {
    hide Before;
    if s != [] {
      var rest, last := s[..|s| - 1], s[|s| - 1];
      SortOrdered(rest);
      forall q | q in Sort(rest) ensures q.index != last.index {
        assert q in multiset(Sort(rest)) && q in multiset(rest);
        assert q in rest;
      }
      InsertOrdered(Sort(rest), last);
    }
  }

  /** Where each card of the deck came from. */
  lemma DeckPlaces(cards: seq<Card>)
    ensures var s := Sort(Decorated(cards));
      && Ordered(s) && |s| == |cards|
      && (forall i | 0 <= i < |s| :: s[i].index < |cards| && s[i].card == cards[s[i].index])
      && (forall i, j | 0 <= i < j < |s| :: s[i].index != s[j].index)
  {
    var d := Decorated(cards);
    SortOrdered(d);
    var s := Sort(d);
    forall i | 0 <= i < |s| ensures s[i] in d {
      assert s[i] in multiset(s) && s[i] in multiset(d);
    }
    forall i, j | 0 <= i < j < |s| ensures s[i].index != s[j].index {
      assert Before(s[i], s[j]) && s[i] in d && s[j] in d;
    }
  }

  /**
    The deck is the cards by falling value, those without a value last, and cards of one rank in
    the order in which they came: a stable permutation.
   */
  lemma DeckIsStable(cards: seq<Card>)
    ensures var deck, s := PrioritizeCollectorCards(cards), Sort(Decorated(cards));
      && multiset(deck) == multiset(cards)
      && (forall i, j | 0 <= i < j < |deck| ::
            && !RanksAbove(deck[j], deck[i]) && (Valued(deck[j]) ==> Valued(deck[i]))
            && (SameRank(deck[i], deck[j]) ==> s[i].index < s[j].index))
  {
    hide Sort, Decorated;
    DeckPlaces(cards);
    var s := Sort(Decorated(cards));
    forall i, j | 0 <= i < j < |s|
      ensures !RanksAbove(s[j].card, s[i].card) && (Valued(s[j].card) ==> Valued(s[i].card))
      ensures SameRank(s[i].card, s[j].card) ==> s[i].index < s[j].index
    {
      assert Before(s[i], s[j]);
    }
    SortCards(Decorated(cards));
    assert Cards(Decorated(cards)) == cards;
  }

  lemma {:induction false} InsertCards(s: seq<Placed>, p: Placed)
    ensures multiset(Cards(Insert(s, p))) == multiset(Cards(s)) + multiset{p.card}
  {
    hide Before, Cards;
    if s == [] || Before(p, s[0]) {
      CardsCons(p, s);
      assert s == [] ==> [p] == [p] + s;
    } else {
      InsertCards(s[1..], p);
      assert s == [s[0]] + s[1..];
      CardsCons(s[0], s[1..]);
      CardsCons(s[0], Insert(s[1..], p));
    }
  }

  lemma CardsCons(p: Placed, s: seq<Placed>)
    ensures Cards([p] + s) == [p.card] + Cards(s)
    ensures multiset(Cards([p] + s)) == multiset{p.card} + multiset(Cards(s))
  {
  }

  lemma {:induction false} SortCards(s: seq<Placed>)
    ensures multiset(Cards(Sort(s))) == multiset(Cards(s))
  {
    hide Insert, Cards;
    if s != [] {
      var rest, last := s[..|s| - 1], s[|s| - 1];
      SortCards(rest);
      InsertCards(Sort(rest), last);
      assert Sort(s) == Insert(Sort(rest), last);
      CardsSnoc(s);
    }
  }

  lemma CardsSnoc(s: seq<Placed>)
    requires s != []
    ensures multiset(Cards(s)) == multiset(Cards(s[..|s| - 1])) + multiset{s[|s| - 1].card}
  {
    assert Cards(s) == Cards(s[..|s| - 1]) + [s[|s| - 1].card];
  }

  // ---------- selection ----------

  /** White space as `trim` knows it. */
  predicate IsSpace(c: char) {
    var n := c as int;
    || 9 <= n <= 13 || n == 32 || n == 0xA0 || n == 0x1680 || 0x2000 <= n <= 0x200A
    || n == 0x2028 || n == 0x2029 || n == 0x202F || n == 0x205F || n == 0x3000 || n == 0xFEFF
  }

  function Trim(s: string): string {
    if s == "" then ""
    else if IsSpace(s[0]) then Trim(s[1..])
    else if IsSpace(s[|s| - 1]) then Trim(s[..|s| - 1])
    else s
  }

  predicate Complete(c: Card) { Trim(c.id) != "" && Trim(c.imageUrl) != "" }

  /** Nothing earlier in the list has the same id or the same image, white space aside. */
  predicate Unlike(earlier: seq<Card>, c: Card) {
    forall e | e in earlier :: Trim(e.id) != Trim(c.id) && Trim(e.imageUrl) != Trim(c.imageUrl)
  }

  /** What is kept: complete cards unlike every card kept before them. */
  function UniqueCards(cards: seq<Card>): seq<Card> {
    if cards == [] then []
    else
      var before, c := UniqueCards(cards[..|cards| - 1]), cards[|cards| - 1];
      if Complete(c) && Unlike(before, c) then before + [c] else before
  }

  predicate AllUnlike(cards: seq<Card>) {
    forall i, j | 0 <= i < j < |cards| ::
      && Trim(cards[i].id) != Trim(cards[j].id)
      && Trim(cards[i].imageUrl) != Trim(cards[j].imageUrl)
  }

  lemma {:induction false} UniqueAreUnlike(cards: seq<Card>)
    ensures AllUnlike(UniqueCards(cards)) && forall c | c in UniqueCards(cards) :: Complete(c)
  {
    if cards != [] {
      UniqueAreUnlike(cards[..|cards| - 1]);
    }
  }

  /** A card is left out only when it is incomplete or like one that is kept. */
  lemma {:induction false} LeftOutForAReason(cards: seq<Card>, k: nat)
    requires k < |cards| && cards[k] !in UniqueCards(cards)
    ensures !Complete(cards[k]) || !Unlike(UniqueCards(cards), cards[k])
  {
    var before := cards[..|cards| - 1];
    if k < |before| {
      assert before[k] == cards[k];
      LeftOutForAReason(before, k);
    }
  }

  function Deck(cards: seq<Card>): seq<Card> { PrioritizeCollectorCards(UniqueCards(cards)) }

  lemma DeckUnlike(cards: seq<Card>)
    ensures AllUnlike(Deck(cards)) && |Deck(cards)| == |UniqueCards(cards)|
  {
    hide Sort, Decorated, Trim;
    var unique := UniqueCards(cards);
    UniqueAreUnlike(cards);
    DeckPlaces(unique);
    var s := Sort(Decorated(unique));
    forall i, j | 0 <= i < j < |s|
      ensures Trim(s[i].card.id) != Trim(s[j].card.id) && Trim(s[i].card.imageUrl) != Trim(s[j].card.imageUrl)
    {
      assert s[i].index < s[j].index || s[j].index < s[i].index;
    }
  }

  /** Towards zero. */
  function Trunc(r: real): int { if r >= 0.0 then r.Floor else -(-r).Floor }

  /** JavaScript's remainder has the sign of the dividend. */
  function Remainder(a: int, n: int): int
    requires n > 0
  {
    if a >= 0 then a % n else -(-a % n)
  }

  lemma WrapsAround(a: int, n: int)
    requires n > 0
    ensures (Remainder(a, n) + n) % n == a % n
  {
    hide Remainder;
    if a < 0 {
      Quotient(-a, n);
      NegativeWraps(n, (-a) / n, (-a) % n);
      RemainderBelow(a, n);
    } else {
      Multiple(1, n, a % n);
      RemainderBelow(a, n);
    }
  }

  lemma RemainderBelow(a: int, n: int)
    requires n > 0
    ensures Remainder(a, n) + n == if a >= 0 then 1 * n + a % n else n - (-a) % n
  {
  }

  lemma Quotient(x: int, n: int)
    requires n > 0
    ensures x == (x / n) * n + x % n && 0 <= x % n < n
  {
  }

  lemma NegativeWraps(n: int, q: int, m: int)
    requires 0 <= m < n
    ensures -(q * n + m) % n == (n - m) % n
  {
    assert (-q) * n == -(q * n) && (-q - 1) * n == -(q * n) - n;
    if m == 0 {
      Multiple(-q, n, 0);
      Multiple(1, n, 0);
    } else {
      Multiple(-q - 1, n, n - m);
      Multiple(0, n, n - m);
    }
  }

  lemma Multiple(q: int, n: int, m: int)
    requires 0 <= m < n
    ensures (q * n + m) % n == m
  {
    var d, r := (q * n + m) / n, (q * n + m) % n;
    assert (q - d) * n == r - m by { assert q * n + m == d * n + r; }
    NoMultipleBetween(q - d, n);
  }

  lemma NoMultipleBetween(k: int, n: int)
    requires n > 0 && -n < k * n < n
    ensures k == 0
  {
    assert k >= 1 ==> (k - 1) * n >= 0;
    assert k <= -1 ==> (-k - 1) * n >= 0;
  }

  function BackgroundSize(deckSize: nat, fanCount: int): nat {
    var wanted := if fanCount > 0 then fanCount else 0;
    var others := if deckSize > 0 then deckSize - 1 else 0;
    if wanted < others then wanted else others
  }

  lemma BackgroundIsSmaller(deckSize: nat, fanCount: int)
    requires deckSize > 0
    ensures BackgroundSize(deckSize, fanCount) < deckSize
  {
  }

  /** The cyclic successors of the card at `index`. */
  function Successors(deck: seq<Card>, index: nat, count: nat): seq<Card>
    requires index < |deck| && count < |deck|
  {
    seq(count, k => deck[(index + 1 + k) % |deck|])
  }

  function PresentationOf(cards: seq<Card>, activeIndex: real, fanCount: real): Presentation {
    var deck := Deck(cards);
    if deck == [] then Empty
    else
      var index := Trunc(activeIndex) % |deck|;
      Presented(deck[index], Successors(deck, index, BackgroundSize(|deck|, Trunc(fanCount))))
  }

  lemma SuccessorsGrow(deck: seq<Card>, index: nat, count: nat)
    requires index < |deck| && count + 1 < |deck|
    ensures Successors(deck, index, count + 1)
      == Successors(deck, index, count) + [deck[(index + 1 + count) % |deck|]]
  {
  }

  lemma SuccessorDiffers(n: nat, index: nat, a: nat, b: nat)
    requires index < n && a < b < n
    ensures (index + a) % n != (index + b) % n
  {
    if index + a < n {
      Multiple(0, n, index + a);
      if index + b < n { Multiple(0, n, index + b); } else { Multiple(1, n, index + b - n); }
    } else {
      Multiple(1, n, index + a - n);
      Multiple(1, n, index + b - n);
    }
  }

  method KeepUnique(cards: seq<Card>) returns (uniqueCards: seq<Card>)
    ensures uniqueCards == UniqueCards(cards)
  {
    hide Trim;
    var seenIds: set<string>, seenImages: set<string> := {}, {};
    uniqueCards := [];
    var n := 0;
    while n < |cards|
      invariant 0 <= n <= |cards| && uniqueCards == UniqueCards(cards[..n])
      invariant seenIds == set c | c in uniqueCards :: Trim(c.id)
      invariant seenImages == set c | c in uniqueCards :: Trim(c.imageUrl)
    {
      var card := cards[n];
      var id, imageUrl := Trim(card.id), Trim(card.imageUrl);
      assert cards[..n + 1][..n] == cards[..n];
      assert Unlike(uniqueCards, card) <==> id !in seenIds && imageUrl !in seenImages;
      if id != "" && imageUrl != "" && id !in seenIds && imageUrl !in seenImages {
        seenIds, seenImages := seenIds + {id}, seenImages + {imageUrl};
        uniqueCards := uniqueCards + [card];
      }
      n := n + 1;
    }
    assert cards[..n] == cards;
  }

  /** The loop behind the active card; no candidate is ever skipped. */
  method FanBehind(deck: seq<Card>, index: nat, limit: nat) returns (backgroundCards: seq<Card>)
    requires index < |deck| && limit < |deck| && AllUnlike(deck)
    ensures backgroundCards == Successors(deck, index, limit)
  {
    hide Trim;
    var activeCard := deck[index];
    backgroundCards := [];
    var offset := 1;
    while offset < |deck| && |backgroundCards| < limit
      invariant 1 <= offset <= |deck| && |backgroundCards| == offset - 1 <= limit
      invariant backgroundCards == Successors(deck, index, offset - 1)
    {
      var candidate := deck[(index + offset) % |deck|];
      SuccessorDiffers(|deck|, index, 0, offset);
      Multiple(0, |deck|, index);
      assert candidate.id != activeCard.id && candidate.imageUrl != activeCard.imageUrl;
      if !(candidate.id == activeCard.id || candidate.imageUrl == activeCard.imageUrl) {
        SuccessorsGrow(deck, index, offset - 1);
        backgroundCards := backgroundCards + [candidate];
      }
      offset := offset + 1;
    }
  }

  method SelectCollectorPresentation(cards: seq<Card>, activeIndex: real, fanCount: real)
    returns (r: Presentation)
    ensures r == PresentationOf(cards, activeIndex, fanCount)
  {
    hide UniqueCards, PrioritizeCollectorCards, AllUnlike, Successors, Remainder, Trunc, BackgroundSize;
    var uniqueCards := KeepUnique(cards);
    var deck := PrioritizeCollectorCards(uniqueCards);
    if |deck| == 0 { return Empty; }
    DeckUnlike(cards);
    WrapsAround(Trunc(activeIndex), |deck|);
    var index := (Remainder(Trunc(activeIndex), |deck|) + |deck|) % |deck|;
    var limit := BackgroundSize(|deck|, Trunc(fanCount));
    BackgroundIsSmaller(|deck|, Trunc(fanCount));
    var backgroundCards := FanBehind(deck, index, limit);
    return Presented(deck[index], backgroundCards);
  }

  /**
    Whatever the index and the fan, the background has as many cards as were asked for, short of
    the whole deck, and no two cards on view share an id or an image.
   */
  lemma BackgroundIsDistinct(cards: seq<Card>, activeIndex: real, fanCount: real)
    requires PresentationOf(cards, activeIndex, fanCount).Presented?
    ensures var p := PresentationOf(cards, activeIndex, fanCount);
      && |p.backgroundCards| == BackgroundSize(|Deck(cards)|, Trunc(fanCount))
      && AllUnlike([p.activeCard] + p.backgroundCards)
  {
    hide Sort, Decorated, Trim, Before, UniqueCards, PrioritizeCollectorCards;
    DeckUnlike(cards);
    var deck := Deck(cards);
    var n, index := |deck|, Trunc(activeIndex) % |deck|;
    var p := PresentationOf(cards, activeIndex, fanCount);
    var view := [p.activeCard] + p.backgroundCards;
    forall i | 0 <= i < |view| ensures view[i] == deck[(index + i) % n] {
      if i == 0 { Multiple(0, n, index); }
    }
    forall i, j | 0 <= i < j < |view|
      ensures Trim(view[i].id) != Trim(view[j].id) && Trim(view[i].imageUrl) != Trim(view[j].imageUrl)
    {
      SuccessorDiffers(n, index, i, j);
      var a, b := (index + i) % n, (index + j) % n;
      assert a < b || b < a;
    }
  }
}

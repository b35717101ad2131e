/**
  The history of completed cycles: reading one page, and the list that the dashboard builds from
  pages under any order of clicks, responses and failures.
 */
module CycleHistory {
  import opened Collating
  import opened Tables
  import opened Wrappers

  /** Times are milliseconds: a valid timestamp is the one ISO text of its millisecond. */
  datatype Item = Item(cycleId: string, status: string, terminalAt: Option<int>, updatedAt: Option<int>)

  datatype Page = Page(
    profile: Profile, generatedAt: int, asOf: int, historyComplete: bool,
    items: seq<Item>, nextCursor: Option<string>)

  const MAX_TEXT := 512
  const MAX_HISTORY_PAGE_SIZE := 20

  // ---------- reading a page ----------

  predicate Descends(compare: Collation, previous: Item, current: Item) {
    && previous.terminalAt.Some? && current.terminalAt.Some?
    && (if previous.terminalAt != current.terminalAt
        then previous.terminalAt.value > current.terminalAt.value
        else compare(previous.cycleId, current.cycleId) < 0)
  }

  /** Every earlier item comes before every later one, strictly. */
  predicate StrictlyOrdered(compare: Collation, items: seq<Item>) {
    forall i, j | 0 <= i < j < |items| :: Descends(compare, items[i], items[j])
  }

  predicate NeighboursDescend(compare: Collation, items: seq<Item>, upTo: nat)
    requires upTo <= |items|
  {
    forall i | 1 <= i < upTo :: Descends(compare, items[i - 1], items[i])
  }

  lemma DescendsTransitive(compare: Collation, a: Item, b: Item, c: Item)
    requires TotalPreorder(compare) && Descends(compare, a, b) && Descends(compare, b, c)
    ensures Descends(compare, a, c)
  {
    hide TotalPreorder;
    Total(compare, a.cycleId, b.cycleId, c.cycleId);
  }

  /** Checking neighbours is checking all pairs. */
  lemma {:induction false} NeighboursSuffice(compare: Collation, items: seq<Item>, i: nat, j: nat)
    requires TotalPreorder(compare) && NeighboursDescend(compare, items, |items|) && i < j < |items|
    ensures Descends(compare, items[i], items[j])
    decreases j
  {
    assert Descends(compare, items[j - 1], items[j]);
    if i < j - 1 {
      NeighboursSuffice(compare, items, i, j - 1);
      DescendsTransitive(compare, items[i], items[j - 1], items[j]);
    }
  }

  predicate IsText(s: string) { 1 <= |s| <= MAX_TEXT }

  predicate TextsOk(raw: Page) {
    && (forall item | item in raw.items :: IsText(item.cycleId) && IsText(item.status))
    && (raw.nextCursor.Some? ==> IsText(raw.nextCursor.value))
  }

  /** What a page that is let through is known to be. */
  predicate WellFormed(compare: Collation, raw: Page, expected: Option<Profile>) {
    && (expected.Some? ==> expected.value == raw.profile)
    && raw.asOf <= raw.generatedAt
    && |raw.items| <= MAX_HISTORY_PAGE_SIZE
    && TextsOk(raw)
    && StrictlyOrdered(compare, raw.items)
    && (if raw.historyComplete then forall item | item in raw.items :: item.terminalAt.Some?
        else raw.items == [] && raw.nextCursor == None)
  }

  method ReadPublicCycleHistory(compare: Collation, raw: Page, expected: Option<Profile>) returns (r: Option<Page>)
    requires TotalPreorder(compare)
    ensures r == if WellFormed(compare, raw, expected) then Some(raw) else None
  {
    if expected.Some? && expected.value != raw.profile { return None; }
    if raw.asOf > raw.generatedAt { return None; }
    if |raw.items| > MAX_HISTORY_PAGE_SIZE || !TextsOk(raw) { return None; }
    var index := 1;
    while index < |raw.items|
      invariant 1 <= index
      invariant NeighboursDescend(compare, raw.items, if index < |raw.items| then index else |raw.items|)
    {
      if !Descends(compare, raw.items[index - 1], raw.items[index]) { return None; }
      index := index + 1;
    }
    forall i, j | 0 <= i < j < |raw.items| ensures Descends(compare, raw.items[i], raw.items[j]) {
      NeighboursSuffice(compare, raw.items, i, j);
    }
    if !raw.historyComplete && (|raw.items| != 0 || raw.nextCursor.Some?) { return None; }
    if raw.historyComplete && exists item | item in raw.items :: item.terminalAt.None? { return None; }
    return Some(raw);
  }

  /** No item stands on a page twice; one cycle can, but only with two terminal times. */
  lemma NoItemTwice(compare: Collation, raw: Page, expected: Option<Profile>, i: nat, j: nat)
    requires TotalPreorder(compare) && WellFormed(compare, raw, expected) && i < j < |raw.items|
    ensures raw.items[i] != raw.items[j]
    ensures raw.items[i].cycleId == raw.items[j].cycleId ==> raw.items[i].terminalAt != raw.items[j].terminalAt
  {
    assert Descends(compare, raw.items[i], raw.items[j]);
    var id := raw.items[i].cycleId;
    Total(compare, id, id, id);
  }

  lemma OneCycleTwice(compare: Collation)
    ensures exists raw: Page ::
      WellFormed(compare, raw, None) && |raw.items| == 2 && raw.items[0].cycleId == raw.items[1].cycleId
  {
    var one, two := Item("c", "done", Some(2), None), Item("c", "done", Some(1), None);
    var raw := Page(Mainnet, 3, 3, true, [one, two], None);
    assert IsText("c") && IsText("done");
    assert Descends(compare, raw.items[0], raw.items[1]);
    assert WellFormed(compare, raw, None) && raw.items[0].cycleId == raw.items[1].cycleId;
  }

  // ---------- the list of the dashboard ----------

  datatype Feed = Loading | Unavailable | Ready(page: Page)

  /** A request in flight, named by its generation. */
  datatype Request = Request(profile: Profile, cursor: Option<string>, append: bool, done: bool)

  /** A page that was applied, with the request it answered and that request's generation. */
  datatype Applied = Applied(generation: nat, request: Request, page: Page)

  /** `generation` counts requests, so the newest one is the last in `requests`. */
  datatype State = State(
    profile: Option<Profile>, requests: seq<Request>, feed: Feed, items: seq<Item>, loadingMore: bool,
    chain: seq<Applied>)

  datatype Event =
    /** The profile becomes known, or changes. */
    | Profiled(to: Profile)
    /** The timer of the effect. */
    | Reload
    /** The button under the list; it is shown for a complete page with a cursor. */
    | Click
    | Respond(generation: nat, page: Page)
    | Fail(generation: nat)

  const INITIAL := State(None, [], Loading, [], false, [])

  predicate ButtonShown(s: State) {
    s.feed.Ready? && s.feed.page.historyComplete && s.feed.page.nextCursor.Some?
  }

  predicate Running(s: State, generation: nat) {
    generation < |s.requests| && !s.requests[generation].done
  }

  ghost predicate Enabled(compare: Collation, s: State, e: Event) {
    match e
    case Profiled(_) => true
    case Reload => true
    case Click => ButtonShown(s)
    case Respond(generation, page) =>
      Running(s, generation) && WellFormed(compare, page, Some(s.requests[generation].profile))
    case Fail(generation) => Running(s, generation)
  }

  predicate Newest(s: State, generation: nat) { generation + 1 == |s.requests| }

  function Start(s: State, cursor: Option<string>, append: bool): State {
    if s.profile.None? then s
    else
      s.(requests := s.requests + [Request(s.profile.value, cursor, append, false)],
         loadingMore := s.loadingMore || append)
  }

  function Finished(s: State, generation: nat): State
    requires generation < |s.requests|
  {
    s.(requests := s.requests[generation := s.requests[generation].(done := true)],
       loadingMore := s.loadingMore && !Newest(s, generation))
  }

  function Received(s: State, generation: nat, page: Page): State
    requires generation < |s.requests|
  {
    var request := s.requests[generation];
    if !Newest(s, generation) then Finished(s, generation)
    else
      Finished(s, generation).(
        feed := Ready(page),
        items := if request.append then s.items + page.items else page.items,
        chain := (if request.append then s.chain else []) + [Applied(generation, request, page)])
  }

  function Missed(s: State, generation: nat): State
    requires generation < |s.requests|
  {
    if !Newest(s, generation) || s.requests[generation].append then Finished(s, generation)
    else Finished(s, generation).(feed := Unavailable)
  }

  ghost function Next(compare: Collation, s: State, e: Event): State
    requires Enabled(compare, s, e)
  {
    match e
    case Profiled(to) => s.(profile := Some(to))
    case Reload => Start(s, None, false)
    case Click => Start(s, s.feed.page.nextCursor, true)
    case Respond(generation, page) => Received(s, generation, page)
    case Fail(generation) => Missed(s, generation)
  }

  /** The component: its state variables, its generation counter, and the two halves of `load`. */
  class HistorySection {
    var profile: Option<Profile>
    var generation: nat
    var feed: Feed
    var items: seq<Item>
    var loadingMore: bool
    ghost var requests: seq<Request>
    ghost var chain: seq<Applied>

    ghost predicate Valid()
      reads this
    {
      generation == |requests|
    }

    ghost function Abstract(): State
      reads this
    {
      State(profile, requests, feed, items, loadingMore, chain)
    }

    constructor ()
      ensures Valid() && Abstract() == INITIAL
    {
      profile, generation, feed, items, loadingMore := None, 0, Loading, [], false;
      requests, chain := [], [];
    }

    /** Up to the fetch; the result is what the rest of this call compares the counter with. */
    method Load(cursor: Option<string>, append: bool) returns (mine: Option<nat>)
      requires Valid()
      modifies this
      ensures Valid() && Abstract() == Start(old(Abstract()), cursor, append)
      ensures mine == if profile.None? then None else Some(old(|requests|))
    {
      if profile.None? { return None; }
      mine := Some(generation);
      generation := generation + 1;
      requests := requests + [Request(profile.value, cursor, append, false)];
      if append { loadingMore := true; }
    }

    /** After the fetch, with a page. */
    method Receive(mine: nat, append: bool, page: Page)
      requires Valid() && mine < |requests| && requests[mine].append == append
      modifies this
      ensures Valid() && Abstract() == Received(old(Abstract()), mine, page)
    {
      if mine + 1 == generation {
        feed := Ready(page);
        items := if append then items + page.items else page.items;
        chain := (if append then chain else []) + [Applied(mine, requests[mine], page)];
        loadingMore := false;
      }
      requests := requests[mine := requests[mine].(done := true)];
    }

    /** After the fetch, without one. */
    method Miss(mine: nat, append: bool)
      requires Valid() && mine < |requests| && requests[mine].append == append
      modifies this
      ensures Valid() && Abstract() == Missed(old(Abstract()), mine)
    {
      if mine + 1 == generation {
        if !append { feed := Unavailable; }
        loadingMore := false;
      }
      requests := requests[mine := requests[mine].(done := true)];
    }
  }

  // ---------- the invariant ----------

  function ItemsOf(chain: seq<Applied>): seq<Item> {
    if chain == [] then [] else ItemsOf(chain[..|chain| - 1]) + chain[|chain| - 1].page.items
  }

  /** Each page was asked for with the cursor of the one before it, the first one with none. */
  predicate IsChain(chain: seq<Applied>) {
    forall i | 0 <= i < |chain| :: Continues(chain[..i], chain[i])
  }

  predicate Continues(before: seq<Applied>, next: Applied) {
    if before == [] then !next.request.append && next.request.cursor == None
    else
      && next.request.append && next.request.cursor.Some?
      && next.request.cursor == before[|before| - 1].page.nextCursor
  }

  ghost predicate PagesRead(compare: Collation, chain: seq<Applied>) {
    forall a | a in chain :: WellFormed(compare, a.page, Some(a.request.profile))
  }

  /** Later pages answer later requests, so none answers a request that has been answered. */
  predicate Rising(chain: seq<Applied>) {
    forall i, j | 0 <= i < j < |chain| :: chain[i].generation < chain[j].generation
  }

  /** The request of a page that was applied, and it is over. */
  predicate Answers(requests: seq<Request>, a: Applied) {
    a.generation < |requests| && requests[a.generation] == a.request.(done := true)
  }

  predicate AnswersAll(requests: seq<Request>, chain: seq<Applied>) {
    forall a | a in chain :: Answers(requests, a)
  }

  /** The newest request, while it runs, continues the list as it stands. */
  predicate NewestContinues(s: State) {
    s.requests != [] ==>
      var newest := s.requests[|s.requests| - 1];
      if newest.append then
        newest.cursor.Some? && (!newest.done ==> s.feed.Ready? && s.feed.page.nextCursor == newest.cursor)
      else newest.cursor == None
  }

  predicate FeedIsLast(s: State) {
    s.feed.Ready? ==> s.chain != [] && s.chain[|s.chain| - 1].page == s.feed.page
  }

  predicate SpinnerStops(s: State) {
    s.loadingMore ==> s.requests != [] && !s.requests[|s.requests| - 1].done
  }

  ghost predicate Sound(compare: Collation, s: State) {
    && s.items == ItemsOf(s.chain)
    && IsChain(s.chain)
    && PagesRead(compare, s.chain)
    && Rising(s.chain)
    && AnswersAll(s.requests, s.chain)
    && NewestContinues(s)
    && FeedIsLast(s)
    && SpinnerStops(s)
  }

  lemma NextSound(compare: Collation, s: State, e: Event)
    requires Sound(compare, s) && Enabled(compare, s, e)
    ensures Sound(compare, Next(compare, s, e))
  {
    hide IsChain, PagesRead, ItemsOf, WellFormed, Rising, AnswersAll;
    match e
    case Profiled(_) =>
    case Reload => AskedMore(s.requests, s.chain, Next(compare, s, e).requests);
    case Click => AskedMore(s.requests, s.chain, Next(compare, s, e).requests);
    case Respond(generation, page) =>
      if Newest(s, generation) {
        AppliedSound(compare, s, generation, page);
      } else {
        FinishedAnswers(s, generation);
      }
    case Fail(generation) => FinishedAnswers(s, generation);
  }

  lemma AskedMore(requests: seq<Request>, chain: seq<Applied>, more: seq<Request>)
    requires AnswersAll(requests, chain) && requests <= more
    ensures AnswersAll(more, chain)
  {
    forall a | a in chain ensures Answers(more, a) {
      assert Answers(requests, a);
    }
  }

  /** A request that still runs has answered nothing, so ending it takes no answer away. */
  lemma FinishedAnswers(s: State, generation: nat)
    requires AnswersAll(s.requests, s.chain) && generation < |s.requests| && !s.requests[generation].done
    ensures AnswersAll(Finished(s, generation).requests, s.chain)
    ensures Newest(s, generation) ==> forall a | a in s.chain :: a.generation < generation
  {
    forall a | a in s.chain
      ensures a.generation != generation && a.generation < |s.requests| && Answers(Finished(s, generation).requests, a)
    {
      assert Answers(s.requests, a);
    }
  }

  lemma AnswersGrow(requests: seq<Request>, chain: seq<Applied>, next: Applied)
    requires Rising(chain) && AnswersAll(requests, chain)
    requires (forall a | a in chain :: a.generation < next.generation) && Answers(requests, next)
    ensures Rising(chain + [next]) && AnswersAll(requests, chain + [next])
  {
    assert forall i | 0 <= i < |chain| :: chain[i] in chain;
  }

  lemma AppliedSound(compare: Collation, s: State, generation: nat, page: Page)
    requires Sound(compare, s) && Newest(s, generation) && !s.requests[generation].done
    requires WellFormed(compare, page, Some(s.requests[generation].profile))
    ensures Sound(compare, Received(s, generation, page))
  {
    hide WellFormed, IsChain, PagesRead, ItemsOf, Rising, AnswersAll;
    var request := s.requests[generation];
    var next := Applied(generation, request, page);
    EmptyChain(compare, Finished(s, generation).requests);
    FinishedAnswers(s, generation);
    ChainGrows(compare, if request.append then s.chain else [], next);
    AnswersGrow(Finished(s, generation).requests, if request.append then s.chain else [], next);
  }

  lemma ChainGrows(compare: Collation, chain: seq<Applied>, next: Applied)
    requires IsChain(chain) && PagesRead(compare, chain)
    requires WellFormed(compare, next.page, Some(next.request.profile))
    requires Continues(chain, next)
    ensures IsChain(chain + [next]) && PagesRead(compare, chain + [next])
    ensures ItemsOf(chain + [next]) == ItemsOf(chain) + next.page.items
  {
    hide WellFormed;
    var grown := chain + [next];
    assert grown[..|chain|] == chain;
    forall i | 0 <= i < |grown| ensures Continues(grown[..i], grown[i]) {
      if i < |chain| {
        assert grown[..i] == chain[..i] && Continues(chain[..i], chain[i]);
      } else {
        assert grown[..i] == chain;
      }
    }
  }

  lemma EmptyChain(compare: Collation, requests: seq<Request>)
    ensures IsChain([]) && PagesRead(compare, []) && ItemsOf([]) == []
    ensures Rising([]) && AnswersAll(requests, [])
  {
  }

  ghost predicate Possible(compare: Collation, s: State, events: seq<Event>)
    decreases |events|
  {
    events != [] ==>
      Enabled(compare, s, events[0]) && Possible(compare, Next(compare, s, events[0]), events[1..])
  }

  ghost function Run(compare: Collation, s: State, events: seq<Event>): State
    requires Possible(compare, s, events)
    decreases |events|
  {
    if events == [] then s else Run(compare, Next(compare, s, events[0]), events[1..])
  }

  lemma {:induction false} EveryRunSound(compare: Collation, s: State, events: seq<Event>)
    requires Sound(compare, s) && Possible(compare, s, events)
    ensures Sound(compare, Run(compare, s, events))
    decreases |events|
  {
    hide Sound;
    if events != [] {
      NextSound(compare, s, events[0]);
      EveryRunSound(compare, Next(compare, s, events[0]), events[1..]);
    }
  }

  /**
    In every run the list is the concatenation of one cursor chain, each page of it read and
    ordered, each the answer to a request of its own that is over, in the order in which they were
    made; and the button waits only while the newest request does.
   */
  lemma ListIsOneChain(compare: Collation, events: seq<Event>)
    requires Possible(compare, INITIAL, events)
    ensures var s := Run(compare, INITIAL, events);
      && s.items == ItemsOf(s.chain) && IsChain(s.chain) && PagesRead(compare, s.chain)
      && (forall i, j | 0 <= i < j < |s.chain| :: s.chain[i].generation < s.chain[j].generation)
      && (forall a | a in s.chain ::
            a.generation < |s.requests| && s.requests[a.generation] == a.request.(done := true))
      && (s.requests != [] && s.requests[|s.requests| - 1].done ==> !s.loadingMore)
  {
    EveryRunSound(compare, INITIAL, events);
    var s := Run(compare, INITIAL, events);
    forall a | a in s.chain ensures Answers(s.requests, a) {}
  }

  /** A superseded request changes nothing that is shown. */
  lemma SupersededChangesNothing(compare: Collation, s: State, e: Event)
    requires Enabled(compare, s, e) && (e.Respond? || e.Fail?) && !Newest(s, e.generation)
    ensures var after := Next(compare, s, e);
      && after.feed == s.feed && after.items == s.items && after.chain == s.chain
      && after.loadingMore == s.loadingMore && after.profile == s.profile
  {
  }

  // ---------- one profile or two ----------

  predicate OneProfile(chain: seq<Applied>) {
    forall a, b | a in chain && b in chain :: a.request.profile == b.request.profile
  }

  /** The parent gives every profile an instance of its own, so an instance hears of one profile only. */
  predicate OnlyProfile(events: seq<Event>, p: Profile) {
    forall e | e in events && e.Profiled? :: e.to == p
  }

  predicate AllFor(s: State, p: Profile) {
    && (s.profile.Some? ==> s.profile.value == p)
    && (forall r | r in s.requests :: r.profile == p)
    && (forall a | a in s.chain :: a.request.profile == p)
  }

  lemma NextFor(compare: Collation, s: State, e: Event, p: Profile)
    requires AllFor(s, p) && Enabled(compare, s, e) && (e.Profiled? ==> e.to == p)
    ensures AllFor(Next(compare, s, e), p)
  {
    hide WellFormed;
    if e.Respond? || e.Fail? {
      assert s.requests[e.generation] in s.requests;
    }
  }

  lemma {:induction false} RunFor(compare: Collation, s: State, events: seq<Event>, p: Profile)
    requires AllFor(s, p) && Possible(compare, s, events) && OnlyProfile(events, p)
    ensures AllFor(Run(compare, s, events), p)
    decreases |events|
  {
    hide AllFor;
    if events != [] {
      assert events[0] in events;
      NextFor(compare, s, events[0], p);
      RunFor(compare, Next(compare, s, events[0]), events[1..], p);
    }
  }

  /** In every run of an instance with its own profile, every page of the list is of that profile. */
  lemma InstanceKeepsProfile(compare: Collation, events: seq<Event>, p: Profile)
    requires Possible(compare, INITIAL, events) && OnlyProfile(events, p)
    ensures OneProfile(Run(compare, INITIAL, events).chain)
    ensures forall a | a in Run(compare, INITIAL, events).chain :: a.page.profile == p
  {
    RunFor(compare, INITIAL, events, p);
    EveryRunSound(compare, INITIAL, events);
  }

  lemma RunCons(compare: Collation, s: State, e: Event, rest: seq<Event>)
    requires Enabled(compare, s, e) && Possible(compare, Next(compare, s, e), rest)
    ensures Possible(compare, s, [e] + rest)
    ensures Run(compare, s, [e] + rest) == Run(compare, Next(compare, s, e), rest)
  {
    assert ([e] + rest)[1..] == rest;
  }

  const OLD_PAGE := Page(Testnet, 1, 1, true, [], Some("c"))
  const NEW_PAGE := Page(Mainnet, 1, 1, true, [], None)

  /** One page of the test network is shown. */
  const SHOWN := State(
    Some(Testnet), [Request(Testnet, None, false, true)], Ready(OLD_PAGE), [], false,
    [Applied(0, Request(Testnet, None, false, false), OLD_PAGE)])

  lemma ReachesShown(compare: Collation, rest: seq<Event>)
    requires Possible(compare, SHOWN, rest)
    ensures var events := [Profiled(Testnet)] + ([Reload] + ([Respond(0, OLD_PAGE)] + rest));
      Possible(compare, INITIAL, events) && Run(compare, INITIAL, events) == Run(compare, SHOWN, rest)
  {
    var s1 := Next(compare, INITIAL, Profiled(Testnet));
    var s2 := Next(compare, s1, Reload);
    assert IsText("c") && WellFormed(compare, OLD_PAGE, Some(Testnet));
    var s3 := Next(compare, s2, Respond(0, OLD_PAGE));
    assert s3 == SHOWN;
    RunCons(compare, s2, Respond(0, OLD_PAGE), rest);
    RunCons(compare, s1, Reload, [Respond(0, OLD_PAGE)] + rest);
    RunCons(compare, INITIAL, Profiled(Testnet), [Reload] + ([Respond(0, OLD_PAGE)] + rest));
  }

  lemma MixesFromShown(compare: Collation)
    ensures var events := [Profiled(Mainnet)] + ([Reload] + ([Click] + ([Respond(2, NEW_PAGE)] + [])));
      Possible(compare, SHOWN, events) && !OneProfile(Run(compare, SHOWN, events).chain)
  {
    var s1 := Next(compare, SHOWN, Profiled(Mainnet));
    var s2 := Next(compare, s1, Reload);
    var s3 := Next(compare, s2, Click);
    assert s3.requests[2] == Request(Mainnet, Some("c"), true, false);
    var s4 := Next(compare, s3, Respond(2, NEW_PAGE));
    RunCons(compare, s3, Respond(2, NEW_PAGE), []);
    RunCons(compare, s2, Click, [Respond(2, NEW_PAGE)] + []);
    RunCons(compare, s1, Reload, [Click] + ([Respond(2, NEW_PAGE)] + []));
    RunCons(compare, SHOWN, Profiled(Mainnet), [Reload] + ([Click] + ([Respond(2, NEW_PAGE)] + [])));
    assert s4.chain[0] in s4.chain && s4.chain[1] in s4.chain;
  }

  /**
    The list depends on that: in an instance that outlived a change of profile, the button of the
    old page would stay up, and a click on it after the reload has started would supersede the
    reload and append a page of the new profile to the list of the old one.
   */
  lemma StaleClickMixes(compare: Collation)
    ensures exists events: seq<Event> ::
      Possible(compare, INITIAL, events) && !OneProfile(Run(compare, INITIAL, events).chain)
  {
    hide OneProfile, Possible, Run;
    MixesFromShown(compare);
    ReachesShown(compare, [Profiled(Mainnet)] + ([Reload] + ([Click] + ([Respond(2, NEW_PAGE)] + []))));
  }
}

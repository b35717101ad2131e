/**
  The two public proxies of the worker.  A module-level map shares one upstream load between all
  requests with the same profile and URL; it is filled when a load starts and cleaned up by a
  callback some time after the load has settled.
 */
module SharedLoads {
  import CommunitySnapshot
  import CycleStatus
  import opened Schema
  import opened Tables
  import opened Wrappers

  function NameOf(p: Profile): string { match p case Testnet => "testnet" case Mainnet => "mainnet" }

  /** The key of the map: profile and URL joined by a colon. */
  function KeyOf(p: Profile, url: string): string { NameOf(p) + ":" + url }

  /** What a load or a cache entry can come to. */
  datatype Result = Loaded(value: Js) | Unavailable | Invalid

  datatype Phase = Pending | Settled(result: Result)

  datatype Load = Load(profile: Profile, url: string, phase: Phase, cleaned: bool)

  /** One request: still waiting for a load, or answered. */
  datatype Client = Waiting(profile: Profile, load: nat) | Answered(profile: Profile, reply: Reply)

  datatype Reply = Success(value: Js) | Failure(code: int)

  /** The map, every load ever started (a load is named by its place) and every request so far. */
  datatype State = State(loads: map<string, nat>, started: seq<Load>, clients: seq<Client>)

  /** The normaliser with the requested profile; `None` is its rejection. */
  type Normaliser = (Profile, Js) -> Option<Js>

  datatype Event =
    /** A request whose cache lookup gave nothing, or nothing readable. */
    | Join(profile: Profile, url: string)
    /** A request whose cache lookup gave a body. */
    | Cached(profile: Profile, url: string, body: Js)
    /** The upstream answers with a body, or not at all. */
    | Settle(load: nat, answer: Option<Js>)
    /** The callback registered when the load was started. */
    | CleanUp(load: nat)
    /** The request continues after its await. */
    | Resume(client: nat)

  predicate Enabled(s: State, e: Event) {
    match e
    case Join(_, _) => true
    case Cached(_, _, _) => true
    case Settle(load, _) => load < |s.started| && s.started[load].phase.Pending?
    case CleanUp(load) => load < |s.started| && s.started[load].phase.Settled? && !s.started[load].cleaned
    case Resume(client) =>
      && client < |s.clients| && s.clients[client].Waiting?
      && s.clients[client].load < |s.started|
      && s.started[s.clients[client].load].phase.Settled?
  }

  function Outcome(normal: Normaliser, p: Profile, body: Option<Js>): Result {
    match body
    case None => Unavailable
    case Some(b) => (match normal(p, b) case Some(v) => Loaded(v) case None => Invalid)
  }

  function ReplyTo(r: Result): Reply {
    match r
    case Loaded(v) => Success(v)
    case Unavailable => Failure(503)
    case Invalid => Failure(502)
  }

  /** Share the load of this key if the map has one, otherwise start one. */
  function Shared(s: State, p: Profile, url: string): (State, nat) {
    var key := KeyOf(p, url);
    if key in s.loads then (s, s.loads[key])
    else
      (s.(loads := s.loads[key := |s.started|], started := s.started + [Load(p, url, Pending, false)]),
       |s.started|)
  }

  function Joined(s: State, p: Profile, url: string): State {
    var (shared, load) := Shared(s, p, url);
    shared.(clients := shared.clients + [Waiting(p, load)])
  }

  function Cleaned(s: State, load: nat): State
    requires load < |s.started|
  {
    var key := KeyOf(s.started[load].profile, s.started[load].url);
    var marked := s.(started := s.started[load := s.started[load].(cleaned := true)]);
    if key in s.loads && s.loads[key] == load then marked.(loads := s.loads - {key}) else marked
  }

  function Next(normal: Normaliser, s: State, e: Event): State
    requires Enabled(s, e)
  {
    match e
    case Join(p, url) => Joined(s, p, url)
    case Cached(p, url, body) =>
      (match normal(p, body)
       case Some(v) => s.(clients := s.clients + [Answered(p, Success(v))])
       case None => Joined(s, p, url))
    case Settle(load, answer) =>
      var it := s.started[load];
      s.(started := s.started[load := it.(phase := Settled(Outcome(normal, it.profile, answer)))])
    case CleanUp(load) => Cleaned(s, load)
    case Resume(client) =>
      var it := s.clients[client];
      s.(clients := s.clients[client := Answered(it.profile, ReplyTo(s.started[it.load].phase.result))])
  }

  // ---------- the module-level map ----------

  class SharedMap {
    var loads: map<string, nat>
    ghost var started: seq<Load>
    ghost var clients: seq<Client>

    ghost function Abstract(): State
      reads this
    {
      State(loads, started, clients)
    }

    constructor ()
      ensures Abstract() == State(map[], [], [])
    {
      loads, started, clients := map[], [], [];
    }

    /** `next` names the promise of the load that would be started. */
    method SharedLoad(p: Profile, url: string, next: nat) returns (load: nat)
      requires next == |started|
      modifies this
      ensures (Abstract(), load) == Shared(old(Abstract()), p, url)
    {
      var key := KeyOf(p, url);
      if key in loads { return loads[key]; }
      loads := loads[key := next];
      started := started + [Load(p, url, Pending, false)];
      return next;
    }

    method CleanUp(p: Profile, url: string, load: nat)
      requires load < |started| && started[load].profile == p && started[load].url == url
      modifies this
      ensures Abstract() == Cleaned(old(Abstract()), load)
    {
      var key := KeyOf(p, url);
      started := started[load := started[load].(cleaned := true)];
      if key in loads && loads[key] == load { loads := loads - {key}; }
    }
  }

  // ---------- the invariant ----------

  lemma KeyDetermines(p: Profile, url: string, q: Profile, other: string)
    ensures KeyOf(p, url) == KeyOf(q, other) <==> p == q && url == other
  {
    assert KeyOf(p, url)[0] == NameOf(p)[0] && KeyOf(q, other)[0] == NameOf(q)[0];
    assert KeyOf(p, url)[|NameOf(p)| + 1..] == url;
    assert KeyOf(q, other)[|NameOf(q)| + 1..] == other;
  }

  function LoadKey(l: Load): string { KeyOf(l.profile, l.url) }

  /** The map's entries are exactly the loads that have not been cleaned up. */
  predicate MapIsLive(s: State) {
    && (forall i | 0 <= i < |s.started| ::
          !s.started[i].cleaned ==> LoadKey(s.started[i]) in s.loads && s.loads[LoadKey(s.started[i])] == i)
    && (forall key | key in s.loads ::
          && s.loads[key] < |s.started|
          && !s.started[s.loads[key]].cleaned
          && LoadKey(s.started[s.loads[key]]) == key)
  }

  predicate CleanedAreSettled(s: State) {
    forall i | 0 <= i < |s.started| :: s.started[i].cleaned ==> s.started[i].phase.Settled?
  }

  /** What the normaliser makes, for this profile, of some body. */
  ghost predicate Normalised(normal: Normaliser, p: Profile, v: Js) {
    exists body: Js :: normal(p, body) == Some(v)
  }

  ghost predicate LoadsNormal(normal: Normaliser, s: State) {
    forall i | 0 <= i < |s.started| ::
      s.started[i].phase.Settled? && s.started[i].phase.result.Loaded? ==>
        Normalised(normal, s.started[i].profile, s.started[i].phase.result.value)
  }

  ghost predicate ClientsNormal(normal: Normaliser, s: State) {
    forall i | 0 <= i < |s.clients| ::
      match s.clients[i]
      case Waiting(p, load) => load < |s.started| && s.started[load].profile == p
      case Answered(p, reply) => reply.Success? ==> Normalised(normal, p, reply.value)
  }

  ghost predicate Sound(normal: Normaliser, s: State) {
    MapIsLive(s) && CleanedAreSettled(s) && LoadsNormal(normal, s) && ClientsNormal(normal, s)
  }

  lemma SharedSound(normal: Normaliser, s: State, p: Profile, url: string)
    requires Sound(normal, s)
    ensures var (after, load) := Shared(s, p, url);
      && Sound(normal, after) && load < |after.started| && after.started[load].profile == p
      && LoadKey(after.started[load]) == KeyOf(p, url) && !after.started[load].cleaned
  {
    hide KeyOf;
    var key := KeyOf(p, url);
    if key in s.loads {
      var it := s.started[s.loads[key]];
      KeyDetermines(p, url, it.profile, it.url);
    } else {
      var (after, load) := Shared(s, p, url);
      forall i | 0 <= i < |s.started| ensures after.started[i] == s.started[i] {}
    }
  }

  lemma CleanedSound(normal: Normaliser, s: State, load: nat)
    requires Sound(normal, s) && load < |s.started| && s.started[load].phase.Settled? && !s.started[load].cleaned
    ensures Sound(normal, Cleaned(s, load))
  {
    var after := Cleaned(s, load);
    forall i | 0 <= i < |s.started| && i != load ensures after.started[i] == s.started[i] {}
  }

  lemma JoinedSound(normal: Normaliser, s: State, p: Profile, url: string)
    requires Sound(normal, s)
    ensures Sound(normal, Joined(s, p, url))
  {
    hide Shared;
    SharedSound(normal, s, p, url);
  }

  lemma SettleSound(normal: Normaliser, s: State, load: nat, answer: Option<Js>)
    requires Sound(normal, s) && Enabled(s, Settle(load, answer))
    ensures Sound(normal, Next(normal, s, Settle(load, answer)))
  {
    var after := Next(normal, s, Settle(load, answer));
    forall i | 0 <= i < |s.started| && i != load ensures after.started[i] == s.started[i] {}
  }

  lemma AnsweredSound(normal: Normaliser, s: State, clients: seq<Client>)
    requires Sound(normal, s) && ClientsNormal(normal, s.(clients := clients))
    ensures Sound(normal, s.(clients := clients))
  {
  }

  lemma NextSound(normal: Normaliser, s: State, e: Event)
    requires Sound(normal, s) && Enabled(s, e)
    ensures Sound(normal, Next(normal, s, e))
  {
    hide MapIsLive, CleanedAreSettled, Shared, Joined, Cleaned;
    match e
    case Join(p, url) => JoinedSound(normal, s, p, url);
    case Cached(p, url, body) =>
      if normal(p, body).Some? {
        AnsweredSound(normal, s, s.clients + [Answered(p, Success(normal(p, body).value))]);
      } else {
        JoinedSound(normal, s, p, url);
      }
    case Settle(load, answer) => SettleSound(normal, s, load, answer);
    case CleanUp(load) => CleanedSound(normal, s, load);
    case Resume(client) => AnsweredSound(normal, s, Next(normal, s, e).clients);
  }

  // ---------- runs ----------

  ghost predicate Possible(normal: Normaliser, s: State, events: seq<Event>)
    decreases |events|
  {
    events != [] ==> Enabled(s, events[0]) && Possible(normal, Next(normal, s, events[0]), events[1..])
  }

  ghost function Run(normal: Normaliser, s: State, events: seq<Event>): State
    requires Possible(normal, s, events)
    decreases |events|
  {
    if events == [] then s else Run(normal, Next(normal, s, events[0]), events[1..])
  }

  lemma {:induction false} EveryRunSound(normal: Normaliser, s: State, events: seq<Event>)
    requires Sound(normal, s) && Possible(normal, s, events)
    ensures Sound(normal, Run(normal, s, events))
    decreases |events|
  {
    hide Sound;
    if events != [] {
      NextSound(normal, s, events[0]);
      EveryRunSound(normal, Next(normal, s, events[0]), events[1..]);
    }
  }

  const NOTHING_YET := State(map[], [], [])

  ghost function Reached(normal: Normaliser, events: seq<Event>): State
    requires Possible(normal, NOTHING_YET, events)
  {
    Run(normal, NOTHING_YET, events)
  }

  /** In every reachable state, at most one unsettled load per profile and URL. */
  lemma OneLoadPerKey(normal: Normaliser, events: seq<Event>, i: nat, j: nat)
    requires Possible(normal, NOTHING_YET, events)
    requires var s := Reached(normal, events);
      && i < |s.started| && j < |s.started|
      && s.started[i].phase.Pending? && s.started[j].phase.Pending?
      && s.started[i].profile == s.started[j].profile && s.started[i].url == s.started[j].url
    ensures i == j
  {
    EveryRunSound(normal, NOTHING_YET, events);
  }

  /** When a clean-up runs, the guard always holds: the entry it removes is its own load's. */
  lemma GuardAlwaysTrue(normal: Normaliser, events: seq<Event>, load: nat)
    requires Possible(normal, NOTHING_YET, events)
    requires Enabled(Reached(normal, events), CleanUp(load))
    ensures var s := Reached(normal, events);
      var key := LoadKey(s.started[load]);
      && key in s.loads && s.loads[key] == load
      && Next(normal, s, CleanUp(load)).loads == s.loads - {key}
  {
    EveryRunSound(normal, NOTHING_YET, events);
  }

  /** Every success has been normalised for the profile of its own request, however it was obtained. */
  lemma SuccessIsNormalised(normal: Normaliser, events: seq<Event>, client: nat)
    requires Possible(normal, NOTHING_YET, events)
    requires var s := Reached(normal, events); client < |s.clients| && s.clients[client].Answered?
    ensures var c := Reached(normal, events).clients[client];
      c.reply.Success? ==> Normalised(normal, c.profile, c.reply.value)
  {
    EveryRunSound(normal, NOTHING_YET, events);
  }

  // ---------- what the dashboard makes of the replies ----------

  /** The community proxy's normaliser. */
  function Community(h: Host): Normaliser { (p, body) => CommunitySnapshot.Normalise(h, Some(p), body) }

  /** The status proxy's normaliser. */
  function Status(h: Host): Normaliser { (p, body) => CycleStatus.Normalise(h, CycleStatus.Web, Some(p), body) }

  /**
    A success of the community proxy is read by the dashboard exactly as the worker sent it if the
    body it was made from can be normalised twice, and rejected otherwise; all bodies that give this
    reply agree in that.
   */
  lemma CommunityReplyRead(h: Host, events: seq<Event>, client: nat, expected: Option<Profile>)
    requires Sane(h) && Possible(Community(h), NOTHING_YET, events)
    requires var s := Reached(Community(h), events);
      client < |s.clients| && s.clients[client].Answered? && s.clients[client].reply.Success?
    requires var c := Reached(Community(h), events).clients[client]; expected.Some? ==> expected.value == c.profile
    ensures var c := Reached(Community(h), events).clients[client];
      && Normalised(Community(h), c.profile, c.reply.value)
      && forall body: Js | CommunitySnapshot.Normalise(h, Some(c.profile), body) == Some(c.reply.value) ::
        && body.Obj?
        && CommunitySnapshot.Normalise(h, expected, c.reply.value)
          == if CommunitySnapshot.Renormalisable(h, body.fields) then Some(c.reply.value) else None
  {
    hide CommunitySnapshot.Normalise, CommunitySnapshot.Renormalisable, Possible, Reached;
    SuccessIsNormalised(Community(h), events, client);
    var c := Reached(Community(h), events).clients[client];
    forall body: Js | CommunitySnapshot.Normalise(h, Some(c.profile), body) == Some(c.reply.value)
      ensures body.Obj?
      ensures CommunitySnapshot.Normalise(h, expected, c.reply.value)
        == if CommunitySnapshot.Renormalisable(h, body.fields) then Some(c.reply.value) else None
    {
      AnyExpected(h, c.profile, expected, body);
      CommunitySnapshot.FixedPoint(h, expected, body);
    }
  }

  /** Naming the profile that the body has anyway, or naming none, makes no difference. */
  lemma AnyExpected(h: Host, p: Profile, expected: Option<Profile>, body: Js)
    requires CommunitySnapshot.Normalise(h, Some(p), body).Some? && (expected.Some? ==> expected.value == p)
    ensures body.Obj?
    ensures CommunitySnapshot.Normalise(h, expected, body) == CommunitySnapshot.Normalise(h, Some(p), body)
  {
    hide Read, CommunitySnapshot.Snapshot, CommunitySnapshot.Upgraded;
  }

  /** The same for the status proxy and the images of the current cycle. */
  lemma StatusReplyRead(h: Host, events: seq<Event>, client: nat, expected: Option<Profile>)
    requires Sane(h) && Possible(Status(h), NOTHING_YET, events)
    requires var s := Reached(Status(h), events);
      client < |s.clients| && s.clients[client].Answered? && s.clients[client].reply.Success?
    requires var c := Reached(Status(h), events).clients[client]; expected.Some? ==> expected.value == c.profile
    ensures var c := Reached(Status(h), events).clients[client];
      && Normalised(Status(h), c.profile, c.reply.value)
      && forall body: Js | CycleStatus.Normalise(h, CycleStatus.Web, Some(c.profile), body) == Some(c.reply.value) ::
        && body.Obj?
        && CycleStatus.Normalise(h, CycleStatus.Web, expected, c.reply.value)
          == if CycleStatus.Renormalisable(h, body.fields) then Some(c.reply.value) else None
  {
    hide CycleStatus.Normalise, CycleStatus.Renormalisable, Possible, Reached;
    SuccessIsNormalised(Status(h), events, client);
    var c := Reached(Status(h), events).clients[client];
    forall body: Js | CycleStatus.Normalise(h, CycleStatus.Web, Some(c.profile), body) == Some(c.reply.value)
      ensures body.Obj?
      ensures CycleStatus.Normalise(h, CycleStatus.Web, expected, c.reply.value)
        == if CycleStatus.Renormalisable(h, body.fields) then Some(c.reply.value) else None
    {
      StatusExpected(h, c.profile, expected, body);
    }
  }

  lemma StatusExpected(h: Host, p: Profile, expected: Option<Profile>, body: Js)
    requires Sane(h) && CycleStatus.Normalise(h, CycleStatus.Web, Some(p), body).Some?
    requires expected.Some? ==> expected.value == p
    ensures body.Obj?
    ensures var sent := CycleStatus.Normalise(h, CycleStatus.Web, Some(p), body).value;
      CycleStatus.Normalise(h, CycleStatus.Web, expected, sent)
        == if CycleStatus.Renormalisable(h, body.fields) then Some(sent) else None
  {
    hide Read, CycleStatus.Status, CycleStatus.Idle, CycleStatus.IdleOk, CycleStatus.Renormalisable,
      CycleStatus.StatusGuarantee, IsProfile, ReadProfile;
    CycleStatus.FixedPoint(h, CycleStatus.Web, Some(p), body);
    CycleStatus.Guaranteed(h, CycleStatus.Web, Some(p), body);
  }
}

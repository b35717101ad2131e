/**
  The dashboard's poller: one request at a time, and after failures a number of the regular ticks
  is skipped.  A trigger is a tick of the interval or a change of visibility.
 */
module Poller {

  const MAX_POLL_BACKOFF_TICKS := 5

  function Min(a: nat, b: nat): nat { if a < b then a else b }

  function PollBackoffTicks(consecutiveFailures: nat): nat { Min(consecutiveFailures, MAX_POLL_BACKOFF_TICKS) }

  /** `refresh` reports whether a feed failed; it may also reject, which only ends the request. */
  datatype Outcome = Succeeded | Failed | Rejected

  datatype Event = Trigger(visible: bool) | Settle(outcome: Outcome)

  /** What the outside sees: requests starting and results being applied, numbered in start order. */
  datatype Mark = Started(id: nat) | Applied(id: nat)

  datatype State = State(requestInFlight: bool, consecutiveFailures: nat, skipTicks: nat, log: seq<Mark>)

  const INITIAL := State(false, 0, 0, [])

  function Starts(log: seq<Mark>): nat {
    if log == [] then 0
    else Starts(log[..|log| - 1]) + if log[|log| - 1].Started? then 1 else 0
  }

  predicate Enabled(s: State, e: Event) { e.Settle? ==> s.requestInFlight }

  function Next(s: State, e: Event): State
    requires Enabled(s, e)
  {
    match e
    case Trigger(visible) =>
      if !visible then s
      else if s.skipTicks > 0 then s.(skipTicks := s.skipTicks - 1)
      else if s.requestInFlight then s
      else s.(requestInFlight := true, log := s.log + [Started(Starts(s.log))])
    case Settle(outcome) =>
      var failures := match outcome
        case Succeeded => 0
        case Failed => s.consecutiveFailures + 1
        case Rejected => s.consecutiveFailures;
      var skip := match outcome
        case Succeeded => 0
        case Failed => PollBackoffTicks(failures)
        case Rejected => s.skipTicks;
      State(false, failures, skip, s.log + [Applied(if Starts(s.log) > 0 then Starts(s.log) - 1 else 0)])
  }

  // ---------- the effect's closure ----------

  class Effect {
    var requestInFlight: bool
    var consecutiveFailures: nat
    var skipTicks: nat
    ghost var log: seq<Mark>

    ghost function Abstract(): State
      reads this
    {
      State(requestInFlight, consecutiveFailures, skipTicks, log)
    }

    constructor ()
      ensures Abstract() == INITIAL
    {
      requestInFlight, consecutiveFailures, skipTicks, log := false, 0, 0, [];
    }

    method PollIfVisible(visible: bool) returns (started: bool)
      modifies this
      ensures Abstract() == Next(old(Abstract()), Trigger(visible))
      ensures started == (visible && old(skipTicks) == 0 && !old(requestInFlight))
    {
      if !visible { return false; }
      if skipTicks > 0 {
        skipTicks := skipTicks - 1;
        return false;
      }
      if requestInFlight { return false; }
      requestInFlight := true;
      log := log + [Started(Starts(log))];
      return true;
    }

    /** The `then` and `finally` of one refresh, which nothing can come between. */
    method Refreshed(outcome: Outcome)
      requires requestInFlight
      modifies this
      ensures Abstract() == Next(old(Abstract()), Settle(outcome))
    {
      if outcome.Failed? {
        consecutiveFailures := consecutiveFailures + 1;
        skipTicks := PollBackoffTicks(consecutiveFailures);
      } else if outcome.Succeeded? {
        consecutiveFailures := 0;
        skipTicks := 0;
      }
      requestInFlight := false;
      log := log + [Applied(if Starts(log) > 0 then Starts(log) - 1 else 0)];
    }
  }

  // ---------- runs ----------

  ghost predicate Possible(s: State, events: seq<Event>)
    decreases |events|
  {
    events != [] ==> Enabled(s, events[0]) && Possible(Next(s, events[0]), events[1..])
  }

  function Run(s: State, events: seq<Event>): State
    requires Possible(s, events)
    decreases |events|
  {
    if events == [] then s else Run(Next(s, events[0]), events[1..])
  }

  /** Request and result in strict alternation: 0 starts, 0 is applied, 1 starts, and so on. */
  predicate Alternates(log: seq<Mark>) {
    forall i | 0 <= i < |log| :: log[i] == if i % 2 == 0 then Started(i / 2) else Applied(i / 2)
  }

  predicate Sound(s: State) {
    && Alternates(s.log)
    && s.requestInFlight == (|s.log| % 2 == 1)
    && s.skipTicks <= PollBackoffTicks(s.consecutiveFailures)
    && (s.requestInFlight ==> s.skipTicks == 0)
  }

  lemma {:induction false} StartsOfAlternating(log: seq<Mark>)
    requires Alternates(log)
    ensures Starts(log) == (|log| + 1) / 2
  {
    if log != [] {
      StartsOfAlternating(log[..|log| - 1]);
    }
  }

  lemma NextSound(s: State, e: Event)
    requires Sound(s) && Enabled(s, e)
    ensures Sound(Next(s, e))
  {
    StartsOfAlternating(s.log);
  }

  /**
    In every run at most one request is in flight, so results are applied in the order the
    requests started, and the ticks left to skip stay within the back-off of the failures so far.
   */
  lemma {:induction false} EveryRunSound(s: State, events: seq<Event>)
    requires Sound(s) && Possible(s, events)
    ensures Sound(Run(s, events))
    decreases |events|
  {
    if events != [] {
      NextSound(s, events[0]);
      EveryRunSound(Next(s, events[0]), events[1..]);
    }
  }

  // ---------- the back-off, exactly ----------

  predicate OnlyTriggers(events: seq<Event>) { forall e | e in events :: e.Trigger? }

  function Visible(events: seq<Event>): nat {
    if events == [] then 0
    else (if events[0] == Trigger(true) then 1 else 0) + Visible(events[1..])
  }

  /**
    With nothing in flight, a series of triggers does one of two things: while no more of them are
    visible than there are ticks to skip, it swallows exactly the visible ones; the next visible
    one starts exactly one request.  Hidden ones change nothing.
   */
  lemma {:induction false} TriggersSwallowed(s: State, events: seq<Event>)
    requires OnlyTriggers(events) && !s.requestInFlight
    ensures Possible(s, events)
    ensures Run(s, events)
      == if Visible(events) <= s.skipTicks then s.(skipTicks := s.skipTicks - Visible(events))
         else s.(requestInFlight := true, skipTicks := 0, log := s.log + [Started(Starts(s.log))])
    decreases |events|
  {
    if events != [] {
      assert events[0] in events;
      var next := Next(s, events[0]);
      if next.requestInFlight {
        InFlightIgnores(next, events[1..]);
      } else {
        TriggersSwallowed(next, events[1..]);
      }
    }
  }

  lemma {:induction false} InFlightIgnores(s: State, events: seq<Event>)
    requires OnlyTriggers(events) && s.requestInFlight && s.skipTicks == 0
    ensures Possible(s, events) && Run(s, events) == s
    decreases |events|
  {
    if events != [] {
      assert events[0] in events;
      InFlightIgnores(s, events[1..]);
    }
  }

  function Failures(outcomes: seq<Outcome>): nat {
    if outcomes == [] then 0
    else
      match outcomes[|outcomes| - 1]
      case Succeeded => 0
      case Failed => Failures(outcomes[..|outcomes| - 1]) + 1
      case Rejected => Failures(outcomes[..|outcomes| - 1])
  }

  function Outcomes(events: seq<Event>): seq<Outcome> {
    if events == [] then []
    else
      var before, e := Outcomes(events[..|events| - 1]), events[|events| - 1];
      if e.Settle? then before + [e.outcome] else before
  }

  lemma {:induction false} RunSnoc(s: State, events: seq<Event>, e: Event)
    requires Possible(s, events + [e])
    ensures Possible(s, events) && Enabled(Run(s, events), e)
    ensures Run(s, events + [e]) == Next(Run(s, events), e)
    decreases |events|
  {
    if events == [] {
      assert [e][1..] == [];
    } else {
      assert (events + [e])[1..] == events[1..] + [e];
      RunSnoc(Next(s, events[0]), events[1..], e);
    }
  }

  /** The counter is what its name says: the failures since the last success. */
  lemma {:induction false} CountsFailures(events: seq<Event>)
    requires Possible(INITIAL, events)
    ensures Run(INITIAL, events).consecutiveFailures == Failures(Outcomes(events))
    decreases |events|
  {
    if events != [] {
      var before, e := events[..|events| - 1], events[|events| - 1];
      assert events == before + [e];
      RunSnoc(INITIAL, before, e);
      CountsFailures(before);
      if e.Settle? {
        assert (Outcomes(before) + [e.outcome])[..|Outcomes(before)|] == Outcomes(before);
      }
    }
  }

  /**
    After a run ending in its k-th failure without a success in between, exactly min(k, 5) visible
    triggers are swallowed, and the one after them starts the next request.
   */
  lemma AfterFailure(events: seq<Event>, triggers: seq<Event>)
    requires Possible(INITIAL, events) && events != [] && events[|events| - 1] == Settle(Failed)
    requires OnlyTriggers(triggers)
    ensures var s, k := Run(INITIAL, events), Failures(Outcomes(events));
      && k > 0 && s.skipTicks == Min(k, 5) && Possible(s, triggers)
      && (Run(s, triggers).requestInFlight <==> Visible(triggers) > Min(k, 5))
      && |Run(s, triggers).log| == |s.log| + if Visible(triggers) > Min(k, 5) then 1 else 0
  {
    var before := events[..|events| - 1];
    assert events == before + [Settle(Failed)];
    RunSnoc(INITIAL, before, Settle(Failed));
    CountsFailures(events);
    TriggersSwallowed(Run(INITIAL, events), triggers);
  }
}

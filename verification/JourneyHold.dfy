/**
  The scroll tracking of the journey section.  Reaching the finale holds the page for a moment; the
  hold ends by its timer, by Escape or by teardown, and is armed again only further up the page.
 */
module JourneyHold {

  const THUNDER_FINALE_THRESHOLD := 0.965
  const THUNDER_HOLD_RESET_THRESHOLD := 0.9

  /** What one update measures: the raw progress, the range it is a share of, and the scroll position. */
  datatype View = View(rawProgress: real, progressRange: real, scrollY: real)

  /** The `scroll-behavior` of the root element; an empty value is an absent property. */
  datatype Style = Style(value: string, priority: string)

  const HELD := Style("auto", "important")

  datatype Listener = Wheel | TouchMove | KeyDown | Scroll | Resize

  const HOLD_LISTENERS := {Wheel, TouchMove, KeyDown}

  datatype Mark = Saw(progress: real) | HoldStarted

  /**
    The closure's variables, and of the browser what they interact with: the handles it has given
    out, the callbacks still to come, the listeners and the root style.
   */
  datatype State = State(
    frame: nat, holdActive: bool, holdArmed: bool, holdScrollY: real, holdTimer: nat, saved: Style,
    handles: nat, pendingFrames: set<nat>, pendingTimers: set<nat>, listeners: set<Listener>, root: Style,
    log: seq<Mark>)

  datatype Event =
    | Scrolled
    | Resized
    | Frame(id: nat, view: View)
    | Timer(id: nat, view: View)
    | Escape(view: View)
    | Teardown

  function Max(a: real, b: real): real { if a > b then a else b }

  function NormalizeJourneyProgress(progress: real): (p: real)
    ensures 0.0 <= p <= 1.0
    ensures 0.0 <= progress <= 1.0 ==> p == progress
  {
    if Max(progress, 0.0) < 1.0 then Max(progress, 0.0) else 1.0
  }

  function ProgressOf(holdActive: bool, view: View): real {
    NormalizeJourneyProgress(
      if holdActive then Max(view.rawProgress, THUNDER_FINALE_THRESHOLD) else view.rawProgress)
  }

  function TargetOf(view: View): real {
    Max(0.0, view.scrollY + (THUNDER_FINALE_THRESHOLD - view.rawProgress) * view.progressRange)
  }

  function HoldStart(s: State, targetScrollY: real): State {
    s.(holdActive := true, holdArmed := false, holdScrollY := targetScrollY,
       saved := s.root, root := HELD,
       listeners := s.listeners + HOLD_LISTENERS,
       holdTimer := s.handles, handles := s.handles + 1, pendingTimers := s.pendingTimers + {s.handles},
       log := s.log + [HoldStarted])
  }

  function Updated(s: State, view: View): State {
    var progress := ProgressOf(s.holdActive, view);
    var armed := s.(holdArmed := s.holdArmed || progress < THUNDER_HOLD_RESET_THRESHOLD,
                    log := s.log + [Saw(progress)]);
    var held := if armed.holdArmed && progress >= THUNDER_FINALE_THRESHOLD
                then HoldStart(armed, TargetOf(view)) else armed;
    held.(frame := 0)
  }

  /** Up to the update that a release ends with. */
  function LetGo(s: State): State {
    if !s.holdActive then s
    else
      s.(holdActive := false, holdTimer := 0, pendingTimers := s.pendingTimers - {s.holdTimer},
         listeners := s.listeners - HOLD_LISTENERS,
         root := if s.saved.value != "" then s.saved else Style("", ""))
  }

  function Released(s: State, view: View): State { if s.holdActive then Updated(LetGo(s), view) else s }

  function Scheduled(s: State): State {
    if s.frame != 0 then s
    else s.(frame := s.handles, handles := s.handles + 1, pendingFrames := s.pendingFrames + {s.handles})
  }

  function TornDown(s: State): State {
    var free := LetGo(s);
    free.(pendingFrames := if free.frame != 0 then free.pendingFrames - {free.frame} else free.pendingFrames,
          listeners := free.listeners - {Scroll, Resize})
  }

  /** The page before the section is installed; handles are never 0. */
  function Fresh(root: Style): State {
    State(0, false, true, 0.0, 0, Style("", ""), 1, {}, {}, {}, root, [])
  }

  function Installed(root: Style, view: View): State {
    var s := Updated(Fresh(root), view);
    s.(listeners := s.listeners + {Scroll, Resize})
  }

  predicate Enabled(s: State, e: Event) {
    match e
    case Scrolled => Scroll in s.listeners
    case Resized => Resize in s.listeners
    case Frame(id, _) => id in s.pendingFrames
    case Timer(id, _) => id in s.pendingTimers
    case Escape(_) => KeyDown in s.listeners
    case Teardown => Scroll in s.listeners
  }

  function Next(s: State, e: Event): State
    requires Enabled(s, e)
  {
    match e
    case Scrolled => Scheduled(s)
    case Resized => Scheduled(s)
    case Frame(id, view) => Updated(s.(pendingFrames := s.pendingFrames - {id}), view)
    case Timer(id, view) => Released(s.(pendingTimers := s.pendingTimers - {id}), view)
    case Escape(view) => Released(s, view)
    case Teardown => TornDown(s)
  }

  // ---------- the closure ----------

  class Tracking {
    var frame: nat
    var holdActive: bool
    var holdArmed: bool
    var holdScrollY: real
    var holdTimer: nat
    var saved: Style
    /** The browser's side. */
    var handles: nat
    var pendingFrames: set<nat>
    var pendingTimers: set<nat>
    var listeners: set<Listener>
    var root: Style
    ghost var log: seq<Mark>

    ghost function Abstract(): State
      reads this
    {
      State(frame, holdActive, holdArmed, holdScrollY, holdTimer, saved,
            handles, pendingFrames, pendingTimers, listeners, root, log)
    }

    constructor (style: Style, view: View)
      ensures Abstract() == Installed(style, view)
    {
      frame, holdActive, holdArmed, holdScrollY, holdTimer, saved := 0, false, true, 0.0, 0, Style("", "");
      handles, pendingFrames, pendingTimers, listeners, root, log := 1, {}, {}, {}, style, [];
      new;
      Update(view);
      listeners := listeners + {Scroll, Resize};
    }

    method StartHold(targetScrollY: real)
      modifies this
      ensures Abstract() == HoldStart(old(Abstract()), targetScrollY)
    {
      hide HOLD_LISTENERS, HELD;
      holdActive := true;
      holdArmed := false;
      holdScrollY := targetScrollY;
      saved := root;
      root := HELD;
      listeners := listeners + HOLD_LISTENERS;
      holdTimer := handles;
      pendingTimers := pendingTimers + {handles};
      handles := handles + 1;
      log := log + [HoldStarted];
    }

    method Update(view: View)
      modifies this
      ensures Abstract() == Updated(old(Abstract()), view)
    {
      var progress := ProgressOf(holdActive, view);
      log := log + [Saw(progress)];
      if progress < THUNDER_HOLD_RESET_THRESHOLD { holdArmed := true; }
      if holdArmed && progress >= THUNDER_FINALE_THRESHOLD {
        StartHold(TargetOf(view));
      }
      frame := 0;
    }

    method ReleaseHold(emit: bool, view: View)
      modifies this
      ensures Abstract() == if emit then Released(old(Abstract()), view) else LetGo(old(Abstract()))
    {
      if !holdActive { return; }
      holdActive := false;
      pendingTimers := pendingTimers - {holdTimer};
      holdTimer := 0;
      listeners := listeners - HOLD_LISTENERS;
      if saved.value != "" { root := saved; } else { root := Style("", ""); }
      if emit { Update(view); }
    }

    method Schedule()
      modifies this
      ensures Abstract() == Scheduled(old(Abstract()))
    {
      if frame == 0 {
        frame, handles, pendingFrames := handles, handles + 1, pendingFrames + {handles};
      }
    }

    method TearDown(view: View)
      modifies this
      ensures Abstract() == TornDown(old(Abstract()))
    {
      ReleaseHold(false, view);
      if frame != 0 { pendingFrames := pendingFrames - {frame}; }
      listeners := listeners - {Scroll, Resize};
    }
  }

  // ---------- runs ----------

  predicate Possible(s: State, events: seq<Event>)
    decreases |events|
  {
    events != [] ==> Enabled(s, events[0]) && Possible(Next(s, events[0]), events[1..])
  }

  function Run(s: State, events: seq<Event>): State
    requires Possible(s, events)
    decreases |events|
  {
    if events == [] then s else Run(Next(s, events[0]), events[1..])
  }

  /** Armed at the outset and by every update above the reset threshold, disarmed by a hold. */
  predicate Armed(log: seq<Mark>) {
    log == [] ||
    match log[|log| - 1]
      case Saw(progress) => progress < THUNDER_HOLD_RESET_THRESHOLD || Armed(log[..|log| - 1])
      case HoldStarted => false
  }

  predicate StartsArmed(log: seq<Mark>) {
    forall i | 0 <= i < |log| && log[i].HoldStarted? :: Armed(log[..i])
  }

  /** A property that is absent has no priority. */
  predicate IsStyle(style: Style) { style.value == "" ==> style.priority == "" }

  predicate Sound(root: Style, s: State) {
    && (s.holdActive ==> !s.holdArmed)
    && s.holdArmed == Armed(s.log) && StartsArmed(s.log)
    && s.listeners * HOLD_LISTENERS == (if s.holdActive then HOLD_LISTENERS else {})
    && s.pendingTimers == (if s.holdActive then {s.holdTimer} else {})
    && (if s.holdActive then s.saved == root && s.root == HELD else s.root == root)
    && (s.frame != 0 && Scroll in s.listeners ==> s.frame in s.pendingFrames)
    && s.handles > 0 && 0 !in s.pendingFrames
    && (forall id | id in s.pendingFrames :: id < s.handles)
  }

  lemma ArmedExtends(log: seq<Mark>, mark: Mark)
    requires StartsArmed(log) && (mark.HoldStarted? ==> Armed(log))
    ensures StartsArmed(log + [mark])
    ensures Armed(log + [mark]) == match mark
      case Saw(progress) => progress < THUNDER_HOLD_RESET_THRESHOLD || Armed(log)
      case HoldStarted => false
  {
    var more := log + [mark];
    assert more[..|log|] == log;
    forall i | 0 <= i < |more| && more[i].HoldStarted? ensures Armed(more[..i]) {
      if i < |log| { assert more[..i] == log[..i]; }
    }
  }

  /** Everything but that a timer that has fired is still counted as pending. */
  lemma UpdatedSound(root: Style, s: State, view: View)
    requires Sound(root, s)
    ensures Sound(root, Updated(s, view))
    ensures s.holdActive ==> Updated(s, view).holdActive
  {
    hide Armed, StartsArmed;
    var progress := ProgressOf(s.holdActive, view);
    ArmedExtends(s.log, Saw(progress));
    if (s.holdArmed || progress < THUNDER_HOLD_RESET_THRESHOLD) && progress >= THUNDER_FINALE_THRESHOLD {
      ArmedExtends(s.log + [Saw(progress)], HoldStarted);
    }
  }

  lemma LetGoSound(root: Style, s: State)
    requires Sound(root, s) && IsStyle(root)
    ensures Sound(root, LetGo(s)) && !LetGo(s).holdActive
  {
  }

  lemma NextSound(root: Style, s: State, e: Event)
    requires Sound(root, s) && IsStyle(root) && Enabled(s, e)
    ensures Sound(root, Next(s, e))
  {
    hide Updated, Armed, StartsArmed;
    match e
    case Frame(id, view) =>
      if id == s.frame {
        StrayUpdated(root, s, id, view);
      } else {
        UpdatedSound(root, s.(pendingFrames := s.pendingFrames - {id}), view);
      }
    case Timer(id, view) =>
      LetGoSound(root, s);
      UpdatedSound(root, LetGo(s), view);
      assert LetGo(s.(pendingTimers := s.pendingTimers - {id})) == LetGo(s);
    case Escape(view) =>
      LetGoSound(root, s);
      UpdatedSound(root, LetGo(s), view);
    case Teardown => LetGoSound(root, s);
    case _ =>
  }

  /** The update of the frame that the closure itself remembers. */
  lemma StrayUpdated(root: Style, s: State, id: nat, view: View)
    requires Sound(root, s) && id in s.pendingFrames && id == s.frame
    ensures Sound(root, Updated(s.(pendingFrames := s.pendingFrames - {id}), view))
  {
    var forgotten := s.(frame := 0, pendingFrames := s.pendingFrames - {id});
    UpdatedSound(root, forgotten, view);
    assert Updated(s.(pendingFrames := s.pendingFrames - {id}), view) == Updated(forgotten, view);
  }

  lemma InstalledSound(root: Style, view: View)
    requires IsStyle(root)
    ensures Sound(root, Installed(root, view))
  {
    hide Armed, StartsArmed, ProgressOf, TargetOf;
    assert Sound(root, Fresh(root)) by { EmptyLog(); }
    UpdatedSound(root, Fresh(root), view);
  }

  lemma EmptyLog()
    ensures Armed([]) && StartsArmed([])
  {
  }

  lemma {:induction false} RunSound(root: Style, s: State, events: seq<Event>)
    requires Sound(root, s) && IsStyle(root) && Possible(s, events)
    ensures Sound(root, Run(s, events))
    decreases |events|
  {
    hide Sound, Next;
    if events != [] {
      NextSound(root, s, events[0]);
      RunSound(root, Next(s, events[0]), events[1..]);
    }
  }

  /**
    In every run the scrolling listeners and the timer are there exactly while a hold is active,
    and whenever none is, the root has the style it had at the beginning.
   */
  lemma HoldLeavesNoTrace(root: Style, view: View, events: seq<Event>)
    requires IsStyle(root) && Possible(Installed(root, view), events)
    ensures var s := Run(Installed(root, view), events);
      && (s.holdActive <==> HOLD_LISTENERS <= s.listeners)
      && (!s.holdActive ==> s.listeners !! HOLD_LISTENERS && s.pendingTimers == {} && s.root == root)
      && (s.holdActive ==> s.pendingTimers == {s.holdTimer} && s.root == HELD)
  {
    hide Armed, StartsArmed, Installed;
    InstalledSound(root, view);
    RunSound(root, Installed(root, view), events);
    var s := Run(Installed(root, view), events);
    assert Wheel in HOLD_LISTENERS;
    if s.holdActive {
      assert s.listeners * HOLD_LISTENERS == HOLD_LISTENERS;
    } else {
      assert Wheel !in s.listeners * HOLD_LISTENERS;
    }
  }

  // ---------- when holds start ----------

  lemma {:induction false} DisarmedUntil(log: seq<Mark>, i: nat, j: nat)
    requires i < j <= |log| && log[i].HoldStarted? && Armed(log[..j])
    ensures exists k :: i < k < j && log[k].Saw? && log[k].progress < THUNDER_HOLD_RESET_THRESHOLD
    decreases j
  {
    var before := log[..j];
    assert before[..|before| - 1] == log[..j - 1];
    if !(log[j - 1].Saw? && log[j - 1].progress < THUNDER_HOLD_RESET_THRESHOLD) {
      DisarmedUntil(log, i, j - 1);
    }
  }

  /** Between any two holds some update saw the progress below the reset threshold. */
  lemma HoldsAreRearmed(root: Style, view: View, events: seq<Event>, i: nat, j: nat)
    requires IsStyle(root) && Possible(Installed(root, view), events)
    requires var log := Run(Installed(root, view), events).log;
      i < j < |log| && log[i].HoldStarted? && log[j].HoldStarted?
    ensures var log := Run(Installed(root, view), events).log;
      exists k :: i < k < j && log[k].Saw? && log[k].progress < THUNDER_HOLD_RESET_THRESHOLD
  {
    hide Armed, Installed;
    InstalledSound(root, view);
    RunSound(root, Installed(root, view), events);
    DisarmedUntil(Run(Installed(root, view), events).log, i, j);
  }

  function Starts(log: seq<Mark>): nat {
    if log == [] then 0
    else Starts(log[..|log| - 1]) + if log[|log| - 1].HoldStarted? then 1 else 0
  }

  /** A hold never starts while one is active, nor in the update that a release ends with. */
  lemma ReleaseStartsNothing(root: Style, s: State, view: View)
    requires Sound(root, s) && s.holdActive
    ensures !Released(s, view).holdActive && Updated(s, view).holdActive
    ensures Starts(Released(s, view).log) == Starts(s.log) == Starts(Updated(s, view).log)
  {
    hide Armed, StartsArmed;
    StartsStep(s.log, Saw(ProgressOf(false, view)));
    StartsStep(s.log, Saw(ProgressOf(true, view)));
  }

  lemma StartsStep(log: seq<Mark>, mark: Mark)
    ensures Starts(log + [mark]) == Starts(log) + if mark.HoldStarted? then 1 else 0
  {
    assert (log + [mark])[..|log|] == log;
  }

  // ---------- after teardown ----------

  /** Torn down: no listener is left, and no timer; what can still come are stray frames. */
  predicate Gone(s: State) { !s.holdActive && s.listeners == {} && s.pendingTimers == {} }

  lemma TearDownIsGone(root: Style, s: State)
    requires Sound(root, s) && IsStyle(root)
    ensures Gone(TornDown(s)) && TornDown(s).root == root
    ensures Scroll in s.listeners ==> TornDown(s).pendingFrames == s.pendingFrames - {s.frame}
  {
    LetGoSound(root, s);
    var free := LetGo(s);
    assert free.listeners * HOLD_LISTENERS == {};
    assert forall l: Listener :: l in HOLD_LISTENERS || l == Scroll || l == Resize;
  }

  /** Frames that were scheduled before a release forgot them can still run their update. */
  predicate CanStillHold(s: State) {
    (s.holdArmed && |s.pendingFrames| >= 1) || |s.pendingFrames| >= 2
  }

  const FAR := View(1.0, 1.0, 0.0)
  const NEAR := View(0.0, 1.0, 0.0)

  lemma RunCons(s: State, e: Event, rest: seq<Event>)
    requires Enabled(s, e) && Possible(Next(s, e), rest)
    ensures Possible(s, [e] + rest) && Run(s, [e] + rest) == Run(Next(s, e), rest)
  {
    assert ([e] + rest)[1..] == rest;
  }

  lemma StrayFrameHolds(s: State)
    requires Gone(s) && CanStillHold(s)
    ensures exists events: seq<Event> :: Possible(s, events) && Run(s, events).holdActive
  {
    var id :| id in s.pendingFrames;
    if s.holdArmed {
      RunCons(s, Frame(id, FAR), []);
    } else {
      var armed := Next(s, Frame(id, NEAR));
      assert |armed.pendingFrames| == |s.pendingFrames| - 1 && armed.holdArmed;
      var other :| other in armed.pendingFrames;
      RunCons(armed, Frame(other, FAR), []);
      RunCons(s, Frame(id, NEAR), [Frame(other, FAR)] + []);
    }
  }

  lemma {:induction false} NoStrayNoHold(s: State, events: seq<Event>)
    requires Gone(s) && !CanStillHold(s) && Possible(s, events)
    ensures !Run(s, events).holdActive
    decreases |events|
  {
    if events != [] {
      var next := Next(s, events[0]);
      assert events[0].Frame?;
      assert |next.pendingFrames| == |s.pendingFrames| - 1;
      NoStrayNoHold(next, events[1..]);
    }
  }

  /**
    Teardown cancels only the frame the closure remembers.  A hold can still start afterwards, and
    then lasts until its timer, exactly when a stray frame is left and the hold is armed, or two
    are left, the first of which can arm it.
   */
  lemma HoldAfterTeardown(s: State)
    requires Gone(s)
    ensures CanStillHold(s)
      <==> exists events: seq<Event> :: Possible(s, events) && Run(s, events).holdActive
  {
    if CanStillHold(s) {
      StrayFrameHolds(s);
    } else {
      forall events: seq<Event> | Possible(s, events) ensures !Run(s, events).holdActive {
        NoStrayNoHold(s, events);
      }
    }
  }

  /** It does happen: scroll during a hold, let the timer end it further up, and leave the page. */
  lemma StrayIsReachable(root: Style)
    requires IsStyle(root)
    ensures exists events: seq<Event> ::
      && Possible(Installed(root, FAR), events)
      && Gone(Run(Installed(root, FAR), events)) && CanStillHold(Run(Installed(root, FAR), events))
  {
    var s := Installed(root, FAR);
    assert s.holdActive && s.pendingTimers == {1} && s.frame == 0;
    var s1 := Next(s, Scrolled);
    assert s1.pendingFrames == {2} && s1.holdTimer == 1;
    var s2 := Next(s1, Timer(1, NEAR));
    assert !s2.holdActive && s2.holdArmed && s2.frame == 0 && s2.pendingFrames == {2};
    var s3 := Next(s2, Teardown);
    assert s3.pendingFrames == {2};
    assert Gone(s3) by {
      assert forall l: Listener :: l in HOLD_LISTENERS || l == Scroll || l == Resize;
    }
    RunCons(s2, Teardown, []);
    RunCons(s1, Timer(1, NEAR), [Teardown] + []);
    RunCons(s, Scrolled, [Timer(1, NEAR)] + ([Teardown] + []));
  }
}

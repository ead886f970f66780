/**
 * The countdown of the emergency screen
 * (client/src/components/EmergencyScreen.tsx): a counter lowered by a
 * one-second timer, a dispatch of the emergency request when it reaches
 * zero or when the call button is pressed, and the screen closing when a
 * dispatch settles or the user cancels. React's effect scheduling is
 * written out as explicit events; the reply to a dispatch is an event too.
 */
module EmergencyScreen {
  import opened Schema

  /** The body of the POST to `/api/emergency/sms`: severity and location, no contact ids. */
  datatype Dispatch = Dispatch(severity: string, location: Location)

  /**
   * `counter` is the `countdown` state; `timerArmed` says a tick is pending;
   * `inFlight` counts dispatches not yet settled (the button is disabled
   * while it is positive); `open` is false once the screen has gone;
   * `sent` lists every dispatch made, in order.
   */
  datatype Screen = Screen(
    severity: string,
    location: Location,
    counter: int,
    timerArmed: bool,
    inFlight: nat,
    open: bool,
    sent: seq<Dispatch>)

  datatype Event =
    | Tick              // the pending one-second timer fires
    | CallNow           // the "CALL 911 NOW" button is pressed
    | Settle(ok: bool)  // a dispatch succeeds or fails
    | Cancel            // "I'M OK": the parent unmounts the screen

  /** `mutate()`: one more request in flight and one more dispatch made. */
  function Fire(s: Screen): (t: Screen)
    ensures t.sent == s.sent + [Dispatch(s.severity, s.location)]
    ensures t.inFlight == s.inFlight + 1
  {
    s.(inFlight := s.inFlight + 1, sent := s.sent + [Dispatch(s.severity, s.location)])
  }

  /**
   * The effect of lines 59-70 for the current counter: at or below zero it
   * dispatches and schedules nothing, otherwise it arms the next tick.
   */
  function RunEffect(s: Screen): Screen {
    if s.counter <= 0 then Fire(s.(timerArmed := false)) else s.(timerArmed := true)
  }

  /** Line 22 and the effect's first run on mount. */
  function Mount(countdown: int, severity: string, location: Location): (s: Screen)
    ensures s.counter == countdown && s.open
    ensures countdown <= 0 ==> !s.timerArmed && s.sent == [Dispatch(severity, location)]
    ensures countdown > 0 ==> s.timerArmed && s.sent == [] && s.inFlight == 0
  {
    RunEffect(Screen(severity, location, countdown, false, 0, true, []))
  }

  /**
   * One event. Events the screen cannot receive in its state change nothing.
   * Every event keeps the props, only ever appends to the dispatches (at most
   * one, from an open screen, carrying the props), and never reopens a closed
   * screen; a closed screen with no tick pending dispatches nothing.
   */
  function Step(s: Screen, e: Event): (r: Screen)
    ensures r.severity == s.severity && r.location == s.location
    ensures s.sent <= r.sent && |r.sent| <= |s.sent| + 1
    ensures |r.sent| > |s.sent| ==> s.open && r.sent[|s.sent|] == Dispatch(s.severity, s.location)
    ensures !s.open ==> !r.open
    ensures !s.open && !s.timerArmed ==> r.sent == s.sent && !r.timerArmed
  {
    match e
    case Tick =>
      if s.open && s.timerArmed then RunEffect(s.(counter := s.counter - 1)) else s
    case CallNow =>
      if s.open && s.inFlight == 0 then Fire(s) else s
    case Settle(_) =>
      if s.inFlight > 0 then s.(inFlight := s.inFlight - 1, open := false, timerArmed := false) else s
    case Cancel =>
      s.(open := false, timerArmed := false)
  }

  function Run(s: Screen, events: seq<Event>): Screen {
    if events == [] then s else Step(Run(s, events[..|events| - 1]), events[|events| - 1])
  }

  /** While the counter is above 1, a tick lowers it by one, re-arms the timer and dispatches nothing. */
  lemma TickCountsDown(s: Screen)
    requires s.open && s.timerArmed && s.counter > 1
    ensures Step(s, Tick) == s.(counter := s.counter - 1)
  {
  }

  /** The tick that brings the counter to zero or below dispatches once and arms no further tick. */
  lemma LastTickDispatches(s: Screen)
    requires s.open && s.timerArmed && s.counter <= 1
    ensures Step(s, Tick).sent == s.sent + [Dispatch(s.severity, s.location)]
    ensures !Step(s, Tick).timerArmed
  {
  }

  function Ticks(n: nat): (es: seq<Event>)
    ensures |es| == n && forall i :: 0 <= i < n ==> es[i] == Tick
  {
    if n == 0 then [] else Ticks(n - 1) + [Tick]
  }

  /**
   * Left alone, a screen mounted with `n > 0` counts down one per tick and
   * dispatches exactly once, on the n-th tick.
   */
  lemma {:induction false} CountdownAlone(n: int, severity: string, location: Location, k: nat)
    requires 0 < n && k <= n
    ensures var s := Run(Mount(n, severity, location), Ticks(k));
      && s.open && s.severity == severity && s.location == location && s.counter == n - k
      && s.timerArmed == (k < n)
      && s.sent == (if k == n then [Dispatch(severity, location)] else [])
  {
    if k > 0 {
      CountdownAlone(n, severity, location, k - 1);
      assert Ticks(k)[..k - 1] == Ticks(k - 1);
      var prev := Run(Mount(n, severity, location), Ticks(k - 1));
      assert Run(Mount(n, severity, location), Ticks(k)) == Step(prev, Tick);
    }
  }

  /** The only way out of a closed screen: once closed with no tick pending, no event dispatches again. */
  lemma {:induction false} ClosedStaysQuiet(s: Screen, events: seq<Event>)
    requires !s.open && !s.timerArmed
    ensures Run(s, events).sent == s.sent
    ensures !Run(s, events).open && !Run(s, events).timerArmed
  {
    if events != [] {
      ClosedStaysQuiet(s, events[..|events| - 1]);
    }
  }

  /** Cancelling before the counter runs out means no dispatch from the timer afterwards. */
  lemma CancelStopsTimer(s: Screen, events: seq<Event>)
    ensures Run(Step(s, Cancel), events).sent == s.sent
  {
    ClosedStaysQuiet(Step(s, Cancel), events);
  }

  /** What holds along every trace that never presses the call button. */
  ghost predicate AtMostOnce(s: Screen) {
    && |s.sent| <= 1
    && (s.timerArmed ==> s.sent == [] && s.open)
  }

  /**
   * At most one dispatch, under the assumption that the call button is
   * never pressed: the timer alone fires once.
   */
  lemma {:induction false} AtMostOneDispatchWithoutCallNow(countdown: int, severity: string, location: Location,
                                                           events: seq<Event>)
    requires forall i :: 0 <= i < |events| ==> events[i] != CallNow
    ensures |Run(Mount(countdown, severity, location), events).sent| <= 1
  {
    AtMostOnceKept(Mount(countdown, severity, location), events);
  }

  lemma {:induction false} AtMostOnceKept(s: Screen, events: seq<Event>)
    requires AtMostOnce(s)
    requires forall i :: 0 <= i < |events| ==> events[i] != CallNow
    ensures AtMostOnce(Run(s, events))
  {
    if events != [] {
      var n := |events| - 1;
      AtMostOnceKept(s, events[..n]);
      assert events[n] != CallNow;
    }
  }

  /**
   * Without that assumption the code dispatches twice: mounted at 1, the
   * button is pressed, and the tick that reaches 0 fires while the first
   * request is still in flight.
   */
  lemma CallNowThenTimerDispatchesTwice(severity: string, location: Location)
    ensures |Run(Mount(1, severity, location), [CallNow, Tick]).sent| == 2
  {
    var s0 := Mount(1, severity, location);
    assert [CallNow, Tick][..1] == [CallNow];
    assert [CallNow][..0] == [];
    assert Run(s0, [CallNow]) == Step(s0, CallNow);
  }

  /** Success and failure of a dispatch end the screen the same way: `onCall` closes it. */
  lemma SettleOutcomeIrrelevant(s: Screen)
    requires s.inFlight > 0
    ensures Step(s, Settle(true)) == Step(s, Settle(false))
    ensures !Step(s, Settle(true)).open && !Step(s, Settle(true)).timerArmed
  {
  }

  /** Every dispatch carries the screen's own severity and location and nothing else. */
  lemma {:induction false} DispatchesCarryProps(s: Screen, events: seq<Event>)
    requires forall d :: d in s.sent ==> d == Dispatch(s.severity, s.location)
    ensures forall d :: d in Run(s, events).sent ==> d == Dispatch(s.severity, s.location)
    ensures Run(s, events).severity == s.severity && Run(s, events).location == s.location
  {
    if events != [] {
      DispatchesCarryProps(s, events[..|events| - 1]);
    }
  }

  /** The mounted component: the same state, updated in place by its handlers. */
  class CountdownScreen {
    const severity: string
    const location: Location
    var counter: int
    var timerArmed: bool
    var inFlight: nat
    var open: bool
    var sent: seq<Dispatch>

    function State(): Screen
      reads this
    {
      Screen(severity, location, counter, timerArmed, inFlight, open, sent)
    }

    /** `mutate()`. */
    method Mutate()
      modifies this
      ensures State() == Fire(old(State()))
    {
      inFlight := inFlight + 1;
      sent := sent + [Dispatch(severity, location)];
    }

    /** Lines 59-70. */
    method CountdownEffect()
      modifies this
      ensures State() == RunEffect(old(State()))
    {
      if counter <= 0 {
        timerArmed := false;
        Mutate();
        return;
      }
      timerArmed := true;
    }

    /** Line 22 and the effect on mount. */
    constructor (countdown: int, severity: string, location: Location)
      ensures State() == Mount(countdown, severity, location)
    {
      this.severity := severity;
      this.location := location;
      counter := countdown;
      timerArmed := false;
      inFlight := 0;
      open := true;
      sent := [];
      new;
      CountdownEffect();
    }

    /** Line 66 and the effect it re-runs. */
    method Tick()
      modifies this
      ensures State() == Step(old(State()), Event.Tick)
    {
      if open && timerArmed {
        counter := counter - 1;
        CountdownEffect();
      }
    }

    /** Lines 73-75 and 108: the button works only while nothing is in flight. */
    method CallNow()
      modifies this
      ensures State() == Step(old(State()), Event.CallNow)
    {
      if open && inFlight == 0 {
        Mutate();
      }
    }

    /** Lines 39-55: either outcome calls `onCall`, which unmounts the screen and clears its timer. */
    method Settle(ok: bool)
      modifies this
      ensures State() == Step(old(State()), Event.Settle(ok))
    {
      if inFlight > 0 {
        inFlight := inFlight - 1;
        open := false;
        timerArmed := false;
      }
    }

    /** Lines 69 and 101: `onCancel` unmounts the screen, and the cleanup clears the timer. */
    method Cancel()
      modifies this
      ensures State() == Step(old(State()), Event.Cancel)
    {
      open := false;
      timerArmed := false;
    }
  }
}

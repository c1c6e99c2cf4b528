/** The countdown state machine of `TimerApp` (pktimer/main.py) as pure
    transitions on a snapshot of its fields. The class in module App is
    proved to follow these transitions; the properties of the machine are
    proved here. */
module Countdown {
  import opened Wrappers

  /** A snapshot of a `TimerApp`. `pending` stands for an armed
      `threading.Timer` that has neither fired nor been cancelled; `shown`
      is the last value handed to the canvas; `commands` lists, in order,
      the shell commands `run_action` has started. */
  datatype State = State(
    seconds: int,
    current: int,
    repeat: int,
    running: bool,
    quit: bool,
    pending: bool,
    shown: int,
    action: Option<string>,
    commands: seq<string>)

  /** The events the outside world delivers: a left click, a right click,
      the armed timer going off, and the window being closed. */
  datatype Event = LeftClick | RightClick | TimerFired | WindowClosed

  /** What holds of every snapshot of a running application. */
  predicate Inv(c: State) {
    c.seconds > 0 &&
    0 <= c.current <= c.seconds &&
    0 <= c.shown <= c.seconds &&
    (c.pending ==> c.running)
  }

  /** A running timer that is not closing always has its next tick armed,
      so the countdown never stalls. This holds between events, not inside
      `start_timer` or a firing, which run `tick` with nothing armed. */
  predicate Live(c: State) {
    c.running && !c.quit ==> c.pending
  }

  /** The application right after `__init__`. */
  function Initial(seconds: int, repeat: int, action: Option<string>): (r: State)
    ensures seconds > 0 ==> Inv(r) && Live(r)
  {
    State(seconds, seconds, repeat, false, false, false, seconds, action, [])
  }

  /** `stop_timer`: cancel the armed timer and clear `running`. */
  function Stop(c: State): State {
    c.(running := false, pending := false)
  }

  /** `reset`: back to the full count, and redraw. */
  function Reset(c: State): State {
    c.(current := c.seconds, shown := c.seconds)
  }

  /** `run_action`: start the configured command, if there is one. */
  function RunAction(c: State): State {
    match c.action
    case None => c
    case Some(cmd) => c.(commands := c.commands + [cmd])
  }

  /** `on_delete`: the window is going away. */
  function Close(c: State): State {
    c.(quit := true)
  }

  /** `start_timer`: set `running` and tick at once. */
  function Start(c: State): (r: State)
    requires c.seconds > 0
    ensures r.seconds == c.seconds && r.action == c.action && r.quit == c.quit
    ensures c.commands <= r.commands
    ensures r.repeat <= c.repeat && (c.repeat >= -1 ==> r.repeat >= -1)
    decreases if c.current == 0 then 1 else 0, 2
  {
    Tick(c.(running := true))
  }

  /** `tick`: nothing when stopped or closing; otherwise draw the current
      value, then either count down one second and arm the timer, or, at
      zero, stop, run the action, use up one repeat and perhaps restart. */
  function Tick(c: State): (r: State)
    requires c.seconds > 0
    ensures r.seconds == c.seconds && r.action == c.action && r.quit == c.quit
    ensures c.commands <= r.commands
    ensures r.repeat <= c.repeat && (c.repeat >= -1 ==> r.repeat >= -1)
    decreases if c.current == 0 then 1 else 0, 1
  {
    if !c.running || c.quit then c
    else
      var drawn := c.(shown := c.current);
      if drawn.current == 0 then
        var ran := RunAction(Stop(drawn));
        var used := if ran.repeat > 0 then ran.(repeat := ran.repeat - 1) else ran;
        if used.repeat > 0 || used.repeat == 1 then Start(Reset(used)) else used
      else
        drawn.(current := drawn.current - 1, pending := true)
  }

  /** `toggle`: stop when running, start otherwise. */
  function Toggle(c: State): State
    requires c.seconds > 0
  {
    if c.running then Stop(c) else Start(c)
  }

  /** The armed timer goes off: it is no longer pending and calls `tick`. */
  function Fire(c: State): State
    requires c.seconds > 0
  {
    if c.pending then Tick(c.(pending := false)) else c
  }

  function Step(c: State, e: Event): State
    requires c.seconds > 0
  {
    match e
    case LeftClick => Toggle(c)
    case RightClick => Reset(c)
    case TimerFired => Fire(c)
    case WindowClosed => Close(c)
  }

  function Run(c: State, events: seq<Event>): (r: State)
    requires c.seconds > 0
    ensures r.seconds == c.seconds
    decreases |events|
  {
    if events == [] then c
    else
      var next := Step(c, events[0]);
      assert next.seconds == c.seconds;
      Run(next, events[1..])
  }

  /** The timer going off `n` times in a row. */
  function Fires(c: State, n: nat): (r: State)
    requires c.seconds > 0
    ensures r.seconds == c.seconds
    decreases n
  {
    if n == 0 then c else Fires(Fire(c), n - 1)
  }

  /** The commands started by `k` expiries. */
  function Runs(action: Option<string>, k: nat): seq<string> {
    match action
    case None => []
    case Some(cmd) => seq(k, _ => cmd)
  }

  /** The state after an expiry, written out: the action ran once, a
      positive repeat count lost one, and the timer restarted (showing the
      full count and already one second down) exactly when the count was at
      least 2; otherwise it is stopped at zero with nothing armed. */
  function AfterExpiry(c: State): State {
    var left := if c.repeat > 0 then c.repeat - 1 else c.repeat;
    var cmds := c.commands + Runs(c.action, 1);
    if c.repeat >= 2 then
      c.(repeat := left, commands := cmds, running := true, pending := true,
         current := c.seconds - 1, shown := c.seconds)
    else
      c.(repeat := left, commands := cmds, running := false, pending := false,
         current := 0, shown := 0)
  }

  /** The number of countdowns a start runs through: `repeat` when it is at
      least 2, otherwise one (this covers 0, 1 and the "inf" value -1). */
  function Cycles(repeat: int): nat {
    if repeat >= 2 then repeat else 1
  }

  /** The timer is armed at the top of a countdown: what `start_timer`
      leaves behind when it starts from the full count. */
  predicate Armed(c: State) {
    c.seconds > 0 && c.running && !c.quit && c.pending &&
    c.current == c.seconds - 1 && c.shown == c.seconds
  }

  /** An expiry that does not restart: the repeat count was below 2. */
  lemma ExpiryStops(c: State)
    requires c.seconds > 0 && c.running && !c.quit && c.current == 0 && c.repeat < 2
    ensures Tick(c) == AfterExpiry(c)
  {
    assert RunAction(Stop(c.(shown := 0))).commands == c.commands + Runs(c.action, 1);
  }

  /** An expiry that restarts: the repeat count was at least 2, and the
      nested start ticks once from the full count. */
  lemma ExpiryRestarts(c: State)
    requires c.seconds > 0 && c.running && !c.quit && c.current == 0 && c.repeat >= 2
    ensures Tick(c) == AfterExpiry(c)
  {
    var ran := RunAction(Stop(c.(shown := 0)));
    assert ran.commands == c.commands + Runs(c.action, 1);
    var top := Reset(ran.(repeat := ran.repeat - 1)).(running := true);
    assert Tick(top) == top.(shown := c.seconds, current := c.seconds - 1, pending := true);
  }

  /** `tick` case by case: a no-op when stopped or closing; one second
      down with the timer armed again; or an expiry. */
  lemma TickCases(c: State)
    requires c.seconds > 0
    ensures !c.running || c.quit ==> Tick(c) == c
    ensures c.running && !c.quit && c.current != 0 ==>
      Tick(c) == c.(shown := c.current, current := c.current - 1, pending := true)
    ensures c.running && !c.quit && c.current == 0 ==> Tick(c) == AfterExpiry(c)
  {
    if c.running && !c.quit && c.current == 0 {
      if c.repeat >= 2 {
        ExpiryRestarts(c);
      } else {
        ExpiryStops(c);
      }
    }
  }

  /** Starting a stopped timer with time left ticks at once, so it runs
      one second down; toggling again stops it there, and two toggles do
      not give back the second. */
  lemma ToggleTwice(c: State)
    requires Inv(c) && !c.running && !c.quit && c.current > 0
    ensures Toggle(c) ==
      c.(running := true, pending := true, shown := c.current, current := c.current - 1)
    ensures Toggle(Toggle(c)) == c.(shown := c.current, current := c.current - 1)
  {
    TickCases(c.(running := true));
  }

  /** Every event keeps the invariant and liveness, never clears `quit`,
      never raises the repeat count or lets it drop below -1, and only
      appends commands. */
  lemma StepInvariant(c: State, e: Event)
    requires Inv(c)
    ensures var r := Step(c, e);
      Inv(r) && (Live(c) ==> Live(r)) &&
      r.seconds == c.seconds && r.action == c.action &&
      (c.quit ==> r.quit) && (e == WindowClosed ==> r.quit) &&
      r.repeat <= c.repeat && (c.repeat >= -1 ==> r.repeat >= -1) &&
      c.commands <= r.commands
  {
    match e
    case LeftClick =>
      if !c.running {
        TickCases(c.(running := true));
      }
    case RightClick =>
    case TimerFired =>
      if c.pending {
        TickCases(c.(pending := false));
      }
    case WindowClosed =>
  }

  /** The same for any sequence of events: once the window is closed it
      stays closed. */
  lemma {:induction false} RunInvariant(c: State, events: seq<Event>)
    requires Inv(c)
    ensures var r := Run(c, events);
      Inv(r) && (Live(c) ==> Live(r)) && r.action == c.action &&
      (c.quit ==> r.quit) && (WindowClosed in events ==> r.quit) &&
      r.repeat <= c.repeat && (c.repeat >= -1 ==> r.repeat >= -1) &&
      c.commands <= r.commands
    decreases |events|
  {
    if events != [] {
      var next := Step(c, events[0]);
      StepInvariant(c, events[0]);
      RunInvariant(next, events[1..]);
      assert WindowClosed in events ==> events[0] == WindowClosed || WindowClosed in events[1..];
    }
  }

  /** After `on_delete` a timer that was already armed still goes off, but
      its tick changes nothing else. */
  lemma {:induction false} SilentAfterClose(c: State, n: nat)
    requires c.seconds > 0 && c.quit
    ensures Fires(c, n) == if n == 0 then c else c.(pending := false)
    decreases n
  {
    if n > 0 {
      TickCases(c.(pending := false));
      SilentAfterClose(Fire(c), n - 1);
    }
  }

  /** With nothing armed, the timer never goes off. */
  lemma {:induction false} IdleStaysIdle(c: State, n: nat)
    requires c.seconds > 0 && !c.pending
    ensures Fires(c, n) == c
    decreases n
  {
    if n > 0 {
      IdleStaysIdle(Fire(c), n - 1);
    }
  }

  lemma {:induction false} FiresAdd(c: State, a: nat, b: nat)
    requires c.seconds > 0
    ensures Fires(c, a + b) == Fires(Fires(c, a), b)
    decreases a
  {
    if a > 0 {
      FiresAdd(Fire(c), a - 1, b);
    }
  }

  /** While time is left, each firing takes exactly one second off and
      arms the timer again. */
  lemma {:induction false} CountDown(c: State, k: nat)
    requires c.seconds > 0 && c.running && !c.quit && c.pending && k <= c.current
    ensures Fires(c, k) ==
      if k == 0 then c else c.(current := c.current - k, shown := c.current - k + 1)
    decreases k
  {
    if k > 0 {
      TickCases(c.(pending := false));
      CountDown(Fire(c), k - 1);
    }
  }

  /** One whole countdown: from the top, `seconds` firings reach the
      expiry. */
  lemma OneCycle(c: State)
    requires Armed(c)
    ensures Fires(c, c.seconds) == AfterExpiry(c)
  {
    FiresAdd(c, c.seconds - 1, 1);
    CountDown(c, c.seconds - 1);
    var bottom := Fires(c, c.seconds - 1);
    TickCases(bottom.(pending := false));
  }

  lemma RunsSucc(action: Option<string>, k: nat)
    ensures Runs(action, 1) + Runs(action, k) == Runs(action, k + 1)
  {
  }

  lemma CyclesSucc(repeat: int, seconds: nat)
    requires repeat >= 2
    ensures Cycles(repeat) * seconds == seconds + Cycles(repeat - 1) * seconds
    ensures Cycles(repeat - 1) * seconds >= 0
  {
    var k := Cycles(repeat - 1);
    assert Cycles(repeat) == k + 1;
    assert (k + 1) * seconds == seconds + k * seconds;
  }

  /** After an expiry with a repeat count of at least 2 the timer is armed
      at the top of the next countdown, with one repeat fewer. */
  lemma RestartArmed(c: State)
    requires Armed(c) && c.repeat >= 2
    ensures Armed(AfterExpiry(c)) && AfterExpiry(c).repeat == c.repeat - 1
  {
  }

  lemma FiresThen(c: State, a: nat, b: nat, mid: State)
    requires c.seconds > 0 && Fires(c, a) == mid
    ensures Fires(c, a + b) == Fires(mid, b)
  {
    FiresAdd(c, a, b);
  }

  /** After one countdown the firings go on from the expiry state. */
  lemma NextCycle(c: State, k: nat)
    requires Armed(c)
    ensures Fires(c, c.seconds + k) == Fires(AfterExpiry(c), k)
  {
    OneCycle(c);
    FiresThen(c, c.seconds, k, AfterExpiry(c));
  }

  /** A started timer runs `Cycles(repeat)` countdowns, running the action
      once at each expiry, and then stays stopped at zero with the repeat
      count used up. */
  lemma {:induction false} FullRun(c: State)
    requires Armed(c)
    ensures Fires(c, Cycles(c.repeat) * c.seconds) ==
      c.(running := false, pending := false, current := 0, shown := 0,
         repeat := if c.repeat > 0 then 0 else c.repeat,
         commands := c.commands + Runs(c.action, Cycles(c.repeat)))
    decreases if c.repeat > 0 then c.repeat else 0
  {
    if c.repeat >= 2 {
      RestartArmed(c);
      CyclesSucc(c.repeat, c.seconds);
      NextCycle(c, Cycles(c.repeat - 1) * c.seconds);
      FullRun(AfterExpiry(c));
      RunsSucc(c.action, Cycles(c.repeat - 1));
    } else {
      OneCycle(c);
    }
  }

  /** From the state `__init__` leaves (or any stopped state at the full
      count), a start followed by `Cycles(repeat) * seconds` firings ends
      stopped, with the action run `Cycles(repeat)` times, and no firing
      ever follows. */
  lemma RunToCompletion(c: State)
    requires Inv(c) && !c.running && !c.quit && c.current == c.seconds
    ensures var r := Fires(Start(c), Cycles(c.repeat) * c.seconds);
      !r.running && !r.pending && r.current == 0 &&
      r.repeat == (if c.repeat > 0 then 0 else c.repeat) &&
      r.commands == c.commands + Runs(c.action, Cycles(c.repeat)) &&
      forall n: nat :: Fires(r, n) == r
  {
    TickCases(c.(running := true));
    FullRun(Start(c));
    var r := Fires(Start(c), Cycles(c.repeat) * c.seconds);
    forall n: nat ensures Fires(r, n) == r {
      IdleStaysIdle(r, n);
    }
  }

  /** Three seconds with `--repeat 2`: six firings after the start run
      the action twice (not three times) and the timer is then stopped;
      with `--repeat inf` one countdown is all there is. */
  lemma RepeatExamples()
    ensures var r := Fires(Start(Initial(3, 2, Some("beep"))), 6);
      !r.running && !r.pending && r.commands == ["beep", "beep"]
    ensures var r := Fires(Start(Initial(3, -1, Some("beep"))), 3);
      !r.running && !r.pending && r.commands == ["beep"] && r.repeat == -1
  {
    RunToCompletion(Initial(3, 2, Some("beep")));
    RunToCompletion(Initial(3, -1, Some("beep")));
  }
}

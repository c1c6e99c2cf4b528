/** `TimerApp` of pktimer/main.py without the toolkit and the threads: a
    class with the application's fields and one method per handler, each
    proved to make the transition of module Countdown. */
module App {
  import opened Wrappers
  import Countdown
  import Canvas
  import Config

  class TimerApp {
    const defaultWidth := 100
    const defaultHeight := 100

    /** Total seconds of one countdown. */
    const seconds: int
    /** Seconds left. */
    var current: int
    /** Repeat count; -1 is what `--repeat inf` stores. */
    var repeat: int
    /** The shell command run at each expiry, if any. */
    const action: Option<string>
    var quit: bool
    var running: bool
    /** A `threading.Timer` is armed: started, not fired, not cancelled. */
    var pending: bool
    /** The commands `run_action` has handed to the shell, in order. */
    var commands: seq<string>
    /** The window geometry asked for. */
    const width: int
    const height: int
    const canvas: Canvas.TimerCanvas

    function Snapshot(): Countdown.State
      reads this, canvas
    {
      Countdown.State(seconds, current, repeat, running, quit, pending,
                      canvas.current, action, commands)
    }

    ghost predicate Valid()
      reads this, canvas
    {
      canvas.Valid() && canvas.seconds == seconds && Countdown.Inv(Snapshot())
    }

    /** `__init__`: the settings with their defaults, stopped at the full
        count, with a canvas of `canvasWidth` x `canvasHeight`. */
    constructor (seconds: int, repeat: Option<int>, action: Option<string>,
                 width: Option<int>, height: Option<int>,
                 canvasWidth: int, canvasHeight: int)
      requires seconds > 0
      ensures Valid() && fresh(canvas)
      ensures Snapshot() == Countdown.Initial(seconds, repeat.GetOr(0), action)
      ensures this.width == width.GetOr(100) && this.height == height.GetOr(100)
    {
      Config.CoalesceDefault(repeat, 0);
      Config.CoalesceDefault(width, defaultWidth);
      Config.CoalesceDefault(height, defaultHeight);
      this.seconds := seconds;
      current := seconds;
      this.repeat := Config.Coalesce([repeat, Some(0)]).value;
      this.action := action;
      quit := false;
      running := false;
      pending := false;
      commands := [];
      this.width := Config.Coalesce([width, Some(defaultWidth)]).value;
      this.height := Config.Coalesce([height, Some(defaultHeight)]).value;
      canvas := new Canvas.TimerCanvas(seconds, canvasWidth, canvasHeight);
    }
  
    /** `on_delete`: mark the application as quitting. */
    method OnDelete()
      requires Valid()
      modifies this`quit
      ensures Valid() && Snapshot() == Countdown.Close(old(Snapshot()))
    {
      quit := true;
    }

    /** `start_timer`: set `running` and tick at once. No timer may be armed:
        the tick arms a new one in place of `self.timer`, and an armed one
        could then no longer be cancelled. Both callers start only after
        the timer is stopped. */
    method StartTimer()
      requires Valid() && !pending
      modifies this, canvas`current, canvas`arc
      ensures Valid() && Snapshot() == Countdown.Start(old(Snapshot()))
      decreases if current == 0 then 1 else 0, 2
    {
      running := true;
      Tick();
    }

    /** `stop_timer`: cancel the armed timer, if any, and clear `running`. */
    method StopTimer()
      requires Valid()
      modifies this`running, this`pending
      ensures Valid() && Snapshot() == Countdown.Stop(old(Snapshot()))
    {
      if pending {
        pending := false;
      }
      running := false;
    }

    /** `toggle` (left click): stop when running, start otherwise. */
    method Toggle()
      requires Valid()
      modifies this, canvas`current, canvas`arc
      ensures Valid() && Snapshot() == Countdown.Toggle(old(Snapshot()))
    {
      if running {
        StopTimer();
      } else {
        StartTimer();
      }
    }

    /** `run_action`: hand the command, if there is one, to the shell. */
    method RunAction()
      modifies this`commands
      ensures Snapshot() == Countdown.RunAction(old(Snapshot()))
    {
      if action.None? {
        return;
      }
      commands := commands + [action.value];
    }

    /** `tick`: nothing when stopped or quitting; otherwise draw the current
        value, then count down and arm the timer, or at zero stop, run the
        action, use up a positive repeat count and restart while it stays
        positive. */
    method Tick()
      requires Valid()
      modifies this, canvas`current, canvas`arc
      ensures Valid() && Snapshot() == Countdown.Tick(old(Snapshot()))
      decreases if current == 0 then 1 else 0, 1
    {
      Countdown.TickCases(Snapshot());
      if !running || quit {
        return;
      }
      canvas.Update(Some(current));
      if current == 0 {
        StopTimer();
        RunAction();
        if repeat > 0 {
          repeat := repeat - 1;
        }
        if repeat > 0 || repeat == 1 {
          Reset();
          StartTimer();
        }
      } else {
        current := current - 1;
        pending := true;
      }
    }

    /** `reset` (right click): back to the full count, and redraw; whether
        the timer runs, and any armed timer, stay as they are. */
    method Reset()
      requires Valid()
      modifies this`current, canvas`current, canvas`arc
      ensures Valid() && Snapshot() == Countdown.Reset(old(Snapshot()))
    {
      current := seconds;
      canvas.Update(Some(current));
    }

    /** The armed `threading.Timer` goes off and calls `tick`. */
    method Fire()
      requires Valid()
      modifies this, canvas`current, canvas`arc
      ensures Valid() && Snapshot() == Countdown.Fire(old(Snapshot()))
    {
      if pending {
        pending := false;
        Tick();
      }
    }
  }
}

# pktimer countdown core, in Dafny

pktimer is a one-window countdown timer. A red circle is eaten away by a
white pie slice as the seconds run out. A left click starts or stops the
countdown and a right click resets it to the full count. At zero the timer
runs a shell command and may start over, depending on `--repeat` (see the
repeat counts below).

This project models the core of `pktimer/main.py` with the toolkit and the
threads taken out:

- `Config` holds the two pure helpers. `coalesce` supplies the defaults of
  the settings. `int_or_inf` validates `--repeat` and turns `inf` into -1.
- `Canvas` holds `TimerCanvas`, a class with the numeric part of its drawing
  decision. The sweep angle is `360 - 360*s/total` (a `real`). The drawing
  size is `min(width, height)`. A disc or an arc is kept as the one
  primitive tagged `arc`.
- `Countdown` is the state machine of `TimerApp` as pure transitions on a
  snapshot of its fields. The lemmas about it live here: the invariant
  `0 <= current <= seconds`, `quit` never cleared, the repeat count never
  rising, and the number of countdowns a start runs through.
- `App` holds `TimerApp`, a class with the application's fields and one
  method per handler. Each method is proved to make the matching
  `Countdown` transition.

The armed `threading.Timer` is a boolean `pending`. The timer going off is
an explicit `Fire` event: the timer stops being pending and `tick` runs.
`run_action` appends the command to a `commands` log instead of starting a
process.

Three behaviours of the code are easy to misread, and the model follows the
code in each:

- Repeat counts. `int_or_inf` maps `inf` to -1 and its message asks for
  "a positive integer or \"inf\"" (`pktimer/main.py:175-181`), which
  suggests repeating without end. But `tick` decrements only a positive
  count and restarts only while the new count is positive
  (`pktimer/main.py:146-151`). The `or self.repeat == 1` at line 149 adds
  nothing to `self.repeat > 0`. So 0, 1 and `inf` (-1) all stop at the
  first expiry, and N >= 2 gives N countdowns in all (`Countdown.FullRun`,
  `Countdown.RepeatExamples`).
- Starting. `start_timer` calls `tick` at once (`pktimer/main.py:106-109`).
  `tick` draws before it decrements (lines 137 and 153). So right after a
  start from the full count, the display still shows the full count but
  `current` is already one lower. Two toggles therefore do not give back
  that second (`Countdown.ToggleTwice`).
- Closing. `on_delete` sets `quit` but does not cancel an armed timer
  (`pktimer/main.py:101-104`). That tick still fires and then does nothing,
  because `tick` returns early once `quit` is set (line 133;
  `Countdown.SilentAfterClose`).

## Model

| member | source | states |
|---|---|---|
| Config.Coalesce | pktimer/main.py:10-13 | The result is the first non-None argument, and None exactly when every argument is None |
| Config.CoalesceDefault | pktimer/main.py:79-87 | `coalesce(x, d)` is `x` when given and the default `d` otherwise (repeat 0, width and height 100) |
| Config.DecimalValue | pktimer/main.py:176-177 | The value of a digit string is never negative, so the `int(value) >= 0` test always passes |
| Config.IntOrInf | pktimer/main.py:175-181 | Accepts exactly the non-empty digit strings (of any length; see Left out), giving their decimal value, and "inf"; every accepted value is >= -1; -1 comes only from "inf"; everything else fails with the `--repeat` message |
| Config.DecimalRoundTrip | pktimer/main.py:176-177 | Reading back the decimal rendering of n gives n |
| Config.IntOrInfAcceptsDecimal | pktimer/main.py:175-177 | Every natural number written in decimal is accepted with its own value (no digit limit; see Left out) |
| Config.LeadingZeros | pktimer/main.py:176-177 | A leading zero does not change the value ("007" is 7) |
| Config.IntOrInfRejects | pktimer/main.py:175-181 | "", "-3", "abc", " 1" and "Inf" are rejected |
| Canvas.DrawSize | pktimer/main.py:36-38 | The size is at most the width and at most the height, and equals one of them |
| Canvas.SweepAngle | pktimer/main.py:33-34 | For 0 <= s <= total the angle lies in [0, 360]; it is 360 exactly when s = 0 and 0 exactly when s = total |
| Canvas.ShapeForCases | pktimer/main.py:40-48 | A full disc is drawn exactly when s = 0; otherwise an arc starting at 90 whose extent is minus the angle, in (-360, 0]; both use size min(width, height) |
| Canvas.FractionInUnit | pktimer/main.py:33 | For 0 <= s <= total the fraction of time left lies in [0, 1] |
| Canvas.SweepDecreasing | pktimer/main.py:33-34 | More seconds left give a strictly smaller sweep |
| Canvas.TimerCanvas.constructor | pktimer/main.py:17-25 | The canvas starts at the full count with the circle and arc drawn for the current size |
| Canvas.TimerCanvas.Update | pktimer/main.py:27-48 | Stores the given value (or keeps the last one when None) and replaces the single arc primitive by the shape for it; nothing else changes |
| Canvas.TimerCanvas.DrawCircle | pktimer/main.py:50-55 | Redraws the base circle at min(width, height) and the arc for the last value, which is kept |
| Canvas.TimerCanvas.Resize | pktimer/main.py:57-59 | After a resize everything is redrawn for the new size and the last value is kept |
| Countdown.Initial | pktimer/main.py:76-84 | The state `__init__` leaves satisfies `Inv` and `Live` when seconds > 0 |
| Countdown.Start | pktimer/main.py:106-109 | Starting never changes seconds, action or quit, only appends commands, and never raises the repeat count or takes it below -1 |
| Countdown.Tick | pktimer/main.py:131-155 | The same frame facts for a tick, through the recursive restart |
| Countdown.Run | pktimer/main.py:92-160 | A sequence of events keeps the total seconds |
| Countdown.Fires | pktimer/main.py:154-155 | Repeated firings of the timer keep the total seconds |
| Countdown.ExpiryStops | pktimer/main.py:142-151 | An expiry with a repeat count below 2 stops the timer at zero, runs the action once and uses up a positive count |
| Countdown.ExpiryRestarts | pktimer/main.py:142-155 | An expiry with a repeat count of at least 2 runs the action once, takes one off the count, resets, and restarts one second down from the full count, with the timer armed |
| Countdown.TickCases | pktimer/main.py:131-155 | A tick is a no-op when stopped or quitting; with time left it takes exactly one second off, draws the old value and arms the timer; at zero it expires as `AfterExpiry` spells out (stop, action once, positive repeat minus one, restart iff the repeat was at least 2) |
| Countdown.ToggleTwice | pktimer/main.py:106-121 | From stopped with time left, a toggle starts the timer one second down and armed; a second toggle stops it there, so current is not restored |
| Countdown.StepInvariant | pktimer/main.py:101-160 | Every event keeps 0 <= current <= seconds and pending only while running, keeps a running timer that is not closing armed, never clears quit, sets it on close, never raises repeat or takes it below -1, and only appends commands |
| Countdown.RunInvariant | pktimer/main.py:101-160 | The same over any sequence of events, so the countdown never stalls while running; once the window is closed, quit stays set |
| Countdown.SilentAfterClose | pktimer/main.py:131-134 | After close, firings change nothing but the pending flag |
| Countdown.IdleStaysIdle | pktimer/main.py:111-115 | With no timer armed, nothing fires |
| Countdown.CountDown | pktimer/main.py:152-155 | While time is left, each firing takes one second off and rearms |
| Countdown.OneCycle | pktimer/main.py:142-155 | From the top of a countdown, `seconds` firings reach exactly the expiry |
| Countdown.RestartArmed | pktimer/main.py:146-155 | After an expiry that restarts, the timer is armed at the top of the next countdown with one repeat fewer |
| Countdown.NextCycle | pktimer/main.py:142-155 | After one whole countdown, further firings continue from the expiry state |
| Countdown.FullRun | pktimer/main.py:142-151 | An armed timer runs Cycles(repeat) countdowns (repeat if >= 2, else 1), runs the action that many times, and ends stopped at zero with the repeat count used up |
| Countdown.RunToCompletion | pktimer/main.py:106-155 | From a stopped timer at the full count, a start and Cycles(repeat) * seconds firings end stopped with nothing armed, and no further firing changes anything |
| Countdown.RepeatExamples | pktimer/main.py:146-151 | Three seconds with repeat 2 run the action twice in six firings; with repeat inf (-1) once in three |
| App.TimerApp.constructor | pktimer/main.py:67-99 | Fields start stopped at the full count with no action run; repeat defaults to 0 and the geometry to 100 x 100 |
| App.TimerApp.OnDelete | pktimer/main.py:101-104 | Sets quit and changes nothing else |
| App.TimerApp.StartTimer | pktimer/main.py:106-109 | Makes the `Countdown.Start` transition and keeps the invariant |
| App.TimerApp.StopTimer | pktimer/main.py:111-115 | Clears running and cancels the armed timer; current, repeat and everything else are untouched |
| App.TimerApp.Toggle | pktimer/main.py:117-121 | Makes the `Countdown.Toggle` transition: stop when running, start otherwise |
| App.TimerApp.RunAction | pktimer/main.py:123-129 | Appends the command when there is one; otherwise nothing changes |
| App.TimerApp.Tick | pktimer/main.py:131-155 | Makes the `Countdown.Tick` transition, including the recursive restart, and keeps the invariant |
| App.TimerApp.Reset | pktimer/main.py:157-160 | Sets current to seconds and redraws; running, repeat and any armed timer stay as they are |
| App.TimerApp.Fire | pktimer/main.py:154-155 | The armed timer going off is no longer pending and runs `tick` |

## Left out

- Toolkit calls (`create_oval`, `create_arc`, `delete`, `bind`, `geometry`, `pack`, `protocol`, `destroy`): only the numeric drawing decision and the requested geometry are kept. `winfo_width`/`winfo_height` are the canvas fields `width`/`height`, which a resize changes.
- Floating point: the angle is a Dafny `real`. The source tests only `angle == 360` (line 42). For totals below 2^44 seconds that test gives the same answer in floating point as in reals. For much larger totals, `360 - 360*s/total` with a small positive `s` can round to exactly 360.0 and draw the full disc; the model does not capture that.
- `threading.Timer` and the thread it runs on: an armed timer is the `pending` flag and its firing is the `Fire` event. Each event runs to completion before the next, so races between the timer thread and the event loop are not modelled.
- `subprocess.call` and its exit code: running the action is an entry in `commands`. The exit code is only logged in the source.
- The `RuntimeError` path of `tick` (a canvas already destroyed): the canvas is destroyed only after `quit` is set, and a tick with `quit` set returns before drawing. Only a tick racing with the close could take that path, and races are not modelled. A right click after the window is destroyed cannot arrive and is not modelled either.
- `tock`, `parse_args`, logging and `main`: event-loop polling, argument parsing and plumbing.
- `interval`: stored by `__init__` and never used.
- The unused canvas field `angle` (line 23).
- App.TimerApp.constructor: requires `seconds > 0`. With 0 the canvas divides by zero, and a negative total never reaches zero.
- Config.IntOrInf: digits are the ASCII digits. Python's `str.isdigit` also accepts other Unicode digits, which `int` then converts or rejects. Those strings are outside the model.
- Config.IntOrInf: the model puts no limit on the number of digits. Recent Pythons (3.11 and later, and the 3.7.14, 3.8.14, 3.9.14 and 3.10.7 security releases) by default make `int` reject a string of more than 4300 digits. That `ValueError` carries Python's own message, not the `--repeat` one. The limit depends on the Python version and its settings, so it is not modelled.
- Config.IntOrInfAcceptsDecimal: for the same reason it holds without a digit limit. On Pythons with the default 4300-digit limit, numbers of more than 4300 digits are rejected.
- setup.py: packaging only.

# Joco gamepad-to-mouse controller: a Dafny model

Joco turns a game controller into a mouse. One worker loop per
controller does four things. It checks once a second whether the pad is
still connected. It drains the gilrs event queue and turns button presses
into pointer clicks. It moves the pointer from one stick. It scrolls the
wheel from the other stick. Each controller also has an external
`try_reconnect` probe. A `Config` record, with its `Default`, drives all
of this.

The model is functional. Each iteration of the loop is a pure function
(`ControlLoop.Step`). It takes the loop state and what the iteration
observes (`ControlLoop.Tick`). It returns the next state and the pointer
calls issued, in order (`Pointer.Action`: `Down`, `Up`, `Move`,
`Scroll`).

Modules, in dependency order:

- `Common`: option type, `Time` as real seconds, `f32` operations over
  `real`, and `Pow`, the stand-in for `powf`. `Signum`, `Trunc` (toward
  zero), `Round` (half away from zero) and the saturating `as i32` cast are
  all defined here.
- `Buttons`: the 20 gilrs buttons, `button_to_string`, and `button_matches`.
  `ButtonToString` is its own table, and `ParseButton` is the table of
  `button_matches`; the contract of `ButtonToString` reads every name back
  through `ParseButton`.
- `Device`: the pad as the loop sees it. This is axis readings in [-1, 1],
  the set of held buttons, and events tagged with a pad id.
- `Configuration`: `Config` and `Config::default`.
- `Pointer`: the three enigo mouse buttons and the pointer calls the
  loop issues.
- `Dispatch`: press, release and flush over the three-entry button-down map
  (`Marks`). `Track` follows one pointer button through a call stream and
  reports a release of a button that is up.
- `Connection`: the shared connected flag, loss time and activity time,
  plus `try_reconnect`.
- `Motion`: dead zone, response shaping, mode multipliers, and the
  truncate-and-carry step.
- `ScrollEngine`: scroll accumulation, the adaptive emission gate, and
  `ScrollState::new`/`reset`.
- `ControlLoop`: the connection check, event draining, one iteration, and
  runs of iterations.

Inputs the program reads from the outside world are parameters:

- the clock (`Tick.now`; one instant per iteration);
- gilrs presence, the event queue, and the axis and button snapshot (`Tick`);
- the outcome of `Gilrs::new()` in `try_reconnect` (`Connection.Probe`);
- the iteration order of the button-state `HashMap` (`Tick.order`, any
  permutation of the three buttons);
- `powf` (`pow`, left uninterpreted).

## Behaviour of the code worth knowing

- `Config::default` sets `use_left_stick_for_mouse` to true, so the left
  stick drives the pointer by default. The field's comment at
  src/config.rs:24 says the right stick is the default; the model follows
  `Default`.
- A connection check that finds the pad missing while it is already
  marked disconnected releases nothing and keeps the marks
  (`StepWhileAbsent`).
- When no check is due, the event queue is drained even while the pad is
  marked disconnected.
- The carry keeps only 70% of the fractional remainder on each tick
  (`Motion.AxisStep`). The comment at src/gamepad_controller.rs:398 says
  the fraction is kept so that tiny movements add up, and the one at
  src/gamepad_controller.rs:409 says the small-value boost makes even tiny
  movements produce whole pixels. A slow, steady deflection instead adds
  up to any distance without moving the pointer at all
  (`Motion.SlowAxisNeverMoves`, `Motion.CarryIsNotConserved`).
- `update_config` resets the `thread_local` scroll state of the thread
  that calls it, not the worker's. The comment at
  src/gamepad_controller.rs:647-650 says the reset lets the new
  configuration take effect at once; the worker's accumulator, momentum
  and timer carry over unchanged.
- `last_update` is not advanced while the pad is disconnected, so the
  first pointer and scroll step after a reconnection uses the whole
  outage as its time step (`ControlLoop.StepReconnects`).

## Model

| member | source | states |
|---|---|---|
| Common.Trunc | src/gamepad_controller.rs:422 | `trunc` is the integer between 0 and x that is nearest to x |
| Common.Round | src/gamepad_controller.rs:525 | `round` is the nearest integer, with halves rounded away from zero |
| Common.Signum | src/gamepad_controller.rs:339 | `signum` is 1 for positive values and for zero, -1 for negative ones, and multiplying by it gives the magnitude |
| Common.SaturateI32 | src/gamepad_controller.rs:422-423 | an `f32 as i32` cast clamps into the 32-bit range and is exact inside it |
| Common.TruncRemainder | src/gamepad_controller.rs:422-429 | the truncated part is no larger than x, the remainder is below 1, and the remainder has the sign of x |
| Buttons.ButtonToString | src/gamepad_controller.rs:755-778 | reading back the name of any button other than `Unknown` gives that button; the name `"Unknown"` reads back as no button |
| Buttons.ParsedNameIsCanonical | src/gamepad_controller.rs:781-804 | every name that `button_matches` recognises is the `button_to_string` name of a button other than `Unknown` |
| Buttons.ButtonToStringInjective | src/gamepad_controller.rs:755-778 | no two buttons share a name |
| Buttons.ButtonMatchesOwnName | src/gamepad_controller.rs:781-804 | for every button but `Unknown`, matching its name is the same as it being held |
| Buttons.ButtonMatchesUnknown | src/gamepad_controller.rs:802 | `"Unknown"` never matches, whatever is held |
| Buttons.ButtonMatches | src/gamepad_controller.rs:781-804 | a name matches if and only if some held button other than `Unknown` has that name |
| Configuration.Default | src/config.rs:36-62 | the default click buttons are South, East, West and North, the mode buttons are LeftTrigger2 and RightTrigger2, and the left stick drives the pointer with no inversion |
| Configuration.DefaultClickButtonsDistinct | src/config.rs:44-47 | the four default click mappings are pairwise distinct |
| Configuration.DefaultModeButtonsDistinct | src/config.rs:54-55 | the default mode buttons differ from each other and from every default click mapping, and both are recognised names |
| Dispatch.Press | src/gamepad_controller.rs:164-205 | a press marks exactly the mapped buttons whose name equals the pressed name, keeps every other mark, and issues only button calls; a double-click match ends with down, up, down, up on Left |
| Dispatch.PressDownCount | src/gamepad_controller.rs:177-203 | a press issues one `mouse_down` per matching mapping, plus two on Left for a double-click match |
| Dispatch.PressUpCount | src/gamepad_controller.rs:196-203 | the only `mouse_up` calls a press issues are the two of a double click |
| Dispatch.PressBalanced | src/gamepad_controller.rs:164-205 | after a press that fires no double click on the button, its mark equals whether it is down |
| Dispatch.Release | src/gamepad_controller.rs:211-245 | a release clears exactly the marks of mapped buttons with the released name, and issues `mouse_up` only for marked buttons |
| Dispatch.ReleaseCounts | src/gamepad_controller.rs:224-244 | a release issues exactly one `mouse_up` for each marked button whose mapping matches, and none otherwise |
| Dispatch.ReleaseBalanced | src/gamepad_controller.rs:211-245 | a release never releases a button that is up, and leaves each mark equal to whether its button is down |
| Dispatch.Flush | src/gamepad_controller.rs:113-128 | the loss flush clears all three marks and issues only `mouse_up` calls for marked buttons |
| Dispatch.FlushCounts | src/gamepad_controller.rs:113-128 | the loss flush releases each marked button exactly once, whatever the map's iteration order |
| Dispatch.FlushBalanced | src/gamepad_controller.rs:260-275 | after the flush every button is up and no button was released while up |
| Dispatch.DoubleClickUnbalancesLeft | src/gamepad_controller.rs:196-229 | holding the left-click button, pressing the double-click button, then releasing the first, releases Left while it is already up |
| Connection.Initial | src/gamepad_controller.rs:66-71 | a new controller starts connected with no loss time |
| Connection.Lose | src/gamepad_controller.rs:104-110 | a loss clears the connected flag and stamps the loss time |
| Connection.Restore | src/gamepad_controller.rs:134-147 | a reconnection sets the connected flag, clears the loss time and refreshes the activity time |
| Connection.TryReconnect | src/gamepad_controller.rs:652-721 | already connected: success with no change; the original pad present: success and restored; otherwise failure with no change; success is the same as ending connected |
| Connection.ReconnectIgnoresOtherPads | src/gamepad_controller.rs:699-719 | with the original pad absent, listing other pads gives the same result as a failed initialisation |
| Connection.ReconnectIdempotent | src/gamepad_controller.rs:652-657 | a probe after a successful one succeeds and changes nothing |
| Motion.EffectiveDeadZone | src/gamepad_controller.rs:333 | the pointer dead zone is the configured one capped at 0.05 |
| Motion.BaseSensitivity | src/gamepad_controller.rs:369 | the sensitivity is floored at 40 |
| Motion.Acceleration | src/gamepad_controller.rs:372 | the acceleration exponent is floored at 1.3 |
| Motion.Shape | src/gamepad_controller.rs:336-343 | a reading inside the dead zone contributes exactly 0 |
| Motion.XMove | src/gamepad_controller.rs:336-343 | the horizontal contribution is 0 inside the dead zone and has the shaped reading's magnitude |
| Motion.YMove | src/gamepad_controller.rs:345-352 | the vertical contribution is the horizontal rule negated, with `invert_y_axis` in place of `invert_x_axis`: Y is reversed by default and not when inverted |
| Motion.AxisInversion | src/gamepad_controller.rs:336-352 | flipping an axis's inversion flag negates that axis's contribution; uninverted, X follows the reading's sign and Y opposes it |
| Motion.ShapeOdd | src/gamepad_controller.rs:336-352 | shaping is odd in the reading, away from zero |
| Motion.ModeMultiplier | src/gamepad_controller.rs:356-366 | the speed multiplier is 1, 0.3 with precision held, 2 with turbo held, and 0.6 with both |
| Motion.PointerStick | src/gamepad_controller.rs:326-330 | the left stick's X and Y drive the pointer when so configured, the right stick's otherwise |
| Motion.Speed | src/gamepad_controller.rs:382-396 | when the power and the multiplier are not negative, the speed points the way the contribution does |
| Motion.SpeedOdd | src/gamepad_controller.rs:382-396 | mirroring a nonzero contribution mirrors its speed |
| Motion.SpeedScalesWithMode | src/gamepad_controller.rs:382-396 | axis speed is linear in the mode multiplier |
| Motion.DeadAxisHasNoSpeed | src/gamepad_controller.rs:336-396 | an axis in the dead zone contributes no movement and no speed |
| Motion.BoostSmall | src/gamepad_controller.rs:410-416 | a value strictly between 0.05 and 1 in magnitude is multiplied by 1.5, every other value passes through, and the direction is kept |
| Motion.CastSplits | src/gamepad_controller.rs:422-429 | truncating, casting to `i32` and keeping 70% of the remainder splits a value into whole pixels and a carry, both in the value's direction, even when the cast saturates |
| Motion.AxisStep | src/gamepad_controller.rs:399-430 | the emitted pixels plus the carry divided by 0.7 equal the boosted value; the carry is below 0.7 unless the cast saturated; pixels and carry both have the boosted value's direction, saturated or not, and the pixels never overshoot it |
| Motion.Drive | src/gamepad_controller.rs:354-446 | on a moving tick, each axis splits its boosted wanted movement into pixels and a carry in its direction, the carry below 0.7 unless the cast saturated, and one move is issued exactly when a delta is nonzero |
| Motion.MotionStep | src/gamepad_controller.rs:326-446 | both contributions zero (in particular both axes in the dead zone): carry untouched and nothing issued; otherwise each axis splits its boosted speed times dt into pixels and a carry below 0.7 (unless saturated), both in that movement's direction and never overshooting, and one move is issued exactly when dx or dy is nonzero |
| Motion.SlowAxisNeverMoves | src/gamepad_controller.rs:403-430 | with a carry of at most 0.035 and per-tick displacements of at most 0.015, no pixel is ever emitted and the carry stays at most 0.035 |
| Motion.CarryIsNotConserved | src/gamepad_controller.rs:426-430 | a constant displacement of 0.015 pixels per tick, over any number of ticks, emits no pixel |
| Motion.DefaultClampsInert | src/config.rs:38-41 | the default dead zone, sensitivity and acceleration are unchanged by their clamps |
| ScrollEngine.NewScroll | src/gamepad_controller.rs:21-28 | a new scroll engine is at rest and equals the state any reset leaves |
| ScrollEngine.Reset | src/gamepad_controller.rs:30-35 | reset zeroes the accumulator, momentum and timer, and forgets the last time |
| ScrollEngine.ResetForgets | src/gamepad_controller.rs:30-35 | scrolling after a reset does not depend on the state before it |
| ScrollEngine.Interval | src/gamepad_controller.rs:501-510 | the interval is 0.0175 s above 0.8, 0.0225 s above 0.5, and 0.025 s otherwise |
| ScrollEngine.ScrollStick | src/gamepad_controller.rs:449-459 | the wheel is driven by the Y axis of the stick that does not drive the pointer |
| ScrollEngine.MagnitudeBoost | src/gamepad_controller.rs:549-564 | the amount is doubled when the stick is past 0.85 and kept otherwise, keeping its direction |
| ScrollEngine.Accumulate | src/gamepad_controller.rs:462-494 | inside 70% of the dead zone nothing changes; beyond it the timer advances by dt and the last time is set |
| ScrollEngine.Gate | src/gamepad_controller.rs:499-546 | a tick fires if and only if the accumulator is at least 0.08 and the timer has reached the interval; firing zeroes the timer, yields 1 tick up to 0.8 or 2 to 3 ticks above it, in the accumulator's direction, and shrinks the accumulator without flipping its sign |
| ScrollEngine.ScrollStep | src/gamepad_controller.rs:549-577 | at most one scroll call per tick, of 1 to 3 ticks, or 2, 4 or 6 when the stick is past 0.85, opposite in sign to the accumulator; without a call the state is the accumulated one, with a call only the accumulator and the timer differ from it, the timer is zero and the accumulator shrinks without flipping sign |
| ScrollEngine.NoScrollWithinInterval | src/gamepad_controller.rs:512-514 | no scroll fires before the timer plus the elapsed time reaches 0.0175 s |
| ControlLoop.Init | src/gamepad_controller.rs:65-92 | the worker starts connected with no button marked |
| ControlLoop.Due | src/gamepad_controller.rs:98 | a connection check is due exactly when a full second has passed since the last one |
| ControlLoop.ChecksSpaced | src/gamepad_controller.rs:96-100 | after an iteration that ran a check, no iteration less than a second later runs another |
| ControlLoop.Poll | src/gamepad_controller.rs:98-148 | a missing pad skips the iteration, and if it was connected the loss is recorded and held buttons are flushed; a missing pad already disconnected changes nothing; a present pad is connected, restoring it if needed |
| ControlLoop.HandleEvent | src/gamepad_controller.rs:157-280 | other pads' events change nothing; only the connection and the marks change; the pad ends disconnected exactly on its own disconnection event; an own press marks every pointer button mapped to the button's name and issues one `mouse_down` per such button plus two on Left for the double-click name; an own release unmarks those buttons and issues one `mouse_up` per marked one |
| ControlLoop.DisconnectEventFlushes | src/gamepad_controller.rs:251-276 | a disconnection event records the loss, clears every mark and releases each held button exactly once |
| ControlLoop.ProcessEvents | src/gamepad_controller.rs:157-281 | after the queue the pad is connected exactly when it was and none of its events reported a disconnection; only button calls are issued |
| ControlLoop.ForeignEventsIgnored | src/gamepad_controller.rs:157-160 | draining the queue is the same as draining only the pad's own events |
| ControlLoop.Elapsed | src/gamepad_controller.rs:290-291 | the time step is never negative, and equals the elapsed time when the clock moved forward |
| ControlLoop.Proceed | src/gamepad_controller.rs:151-581 | ending disconnected leaves carry, scroll and update time alone and issues only button calls; ending connected stamps the update time |
| ControlLoop.ConnectedProceedMoves | src/gamepad_controller.rs:290-581 | a connected iteration takes its carry and scroll state from the motion and scroll steps over the time since the last update, and its calls are button calls followed by exactly the move and scroll calls of those steps |
| ControlLoop.Step | src/gamepad_controller.rs:96-591 | one iteration keeps the connection invariant, moves the check time only when a check was due, and issues no motion or scroll when it ends disconnected |
| ControlLoop.StepConnectivity | src/gamepad_controller.rs:98-287 | an iteration ends connected exactly when no due check found the pad missing, it was connected or a due check found it present, and no own disconnection event arrived |
| ControlLoop.ConnectedStepMoves | src/gamepad_controller.rs:96-581 | an iteration that ends connected moves the pointer and the wheel from its starting carry and scroll state, over the time since the last update, after the button calls |
| ControlLoop.StepDetectsLoss | src/gamepad_controller.rs:103-133 | a due check that finds a connected pad missing records the loss, clears the marks, releases each held button exactly once and changes nothing else |
| ControlLoop.StepWhileAbsent | src/gamepad_controller.rs:103-133 | a due check that finds the pad missing while disconnected only moves the check time |
| ControlLoop.StepReconnects | src/gamepad_controller.rs:134-148 | a due check that finds a disconnected pad present connects it, clears the loss time, refreshes the activity time and resumes motion, with the time since the last update before the outage as its time step |
| ControlLoop.DisconnectedStepIsInert | src/gamepad_controller.rs:283-287 | an iteration that ends disconnected issues no move and no scroll |
| ControlLoop.EventBalanced | src/gamepad_controller.rs:157-280 | one event keeps a tracked button's mark equal to whether it is down |
| ControlLoop.EventsBalanced | src/gamepad_controller.rs:157-281 | draining the queue keeps a tracked button's mark equal to whether it is down |
| ControlLoop.ProceedBalanced | src/gamepad_controller.rs:151-581 | the rest of an iteration keeps a tracked button's mark equal to whether it is down |
| ControlLoop.StepBalanced | src/gamepad_controller.rs:96-591 | one iteration keeps a tracked button's mark equal to whether it is down |
| ControlLoop.Run | src/gamepad_controller.rs:96-591 | the loop keeps its pad and the connection invariant, and when it ends connected its last update is the last iteration's time |
| ControlLoop.RunBalanced | src/gamepad_controller.rs:96-591 | any run keeps a tracked button's mark equal to whether it is down, and never releases it while up |
| ControlLoop.TraceReleaseSymmetry | src/gamepad_controller.rs:82-278 | from the start of the worker, no tracked pointer button is ever released while up, and its final mark says whether it is down |

A button is "tracked" under a configuration when it is Right or Middle,
or when it is Left and no button is named like the double-click mapping.
`Dispatch.DoubleClickUnbalancesLeft` shows why Left needs that condition.
A double click always ends with Left up, but it does not clear the left
mark. So a later release of the left-click button sends a second
`mouse_up`. The default mapping (South for left, North for double click)
is such a configuration.

## Left out

- Threads, atomics and mutexes are not modelled. This covers spawning the
  worker, `stop`, `join`, `Drop`, the `running` flag, and recovery from a
  poisoned lock. The model is one sequential loop, and `try_reconnect` is a
  separate operation on the shared connection state.
- `update_config` is not modelled as a reset of the loop's scroll state.
  It resets the `thread_local` scroll state of the calling thread, not the
  worker's. A configuration change is a different `Tick.cfg`.
- `Motion.MotionStep`: the carry is per loop. In the source, `ACCUM_X` and
  `ACCUM_Y` are `static mut` values shared by every controller in the
  process.
- Numeric curve values are not stated. This covers the `powf` shapes, the
  gain 2.5 × 1.8 × (1 + 6|v|), the momentum blend and all `f32` rounding.
  The contracts state branch and bound facts over reals only.
- `ScrollEngine.Accumulate`: the magnitude of the accumulator update is
  not stated, because it depends on `powf` and on `f32` arithmetic.
- The sleeps, the heartbeat log, every `info!`/`warn!`/`error!` call, and
  the `catch_unwind` wrappers around enigo are left out. They produce no
  pointer call and change no modelled state.
- `Tick`: one clock reading stands for each iteration. The source reads
  `Instant::now()` separately for the check, the activity stamp, `dt` and
  the scroll time.
- Each event is dispatched under the configuration of its iteration. The
  source re-reads the configuration mutex per event.
- `Config::load`, `Config::save` and `get_config_path` are file I/O and
  JSON. The start-up flags (`start_minimized`, `start_with_system`,
  `show_notification`) are carried but not read.
- src/logger.rs, src/main.rs and src/embedded_font.rs are not part of this
  model. They are logging to files, GUI start-up and an embedded asset.
- `ControlLoop.TraceReleaseSymmetry` is stated only for tracked buttons.
  With a live double-click mapping, Left can be released twice, as
  `Dispatch.DoubleClickUnbalancesLeft` shows.

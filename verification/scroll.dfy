/** The scroll momentum engine: the stick not used for the pointer builds
    up an accumulator through a smoothed momentum, and an adaptive gate
    turns the accumulator into whole scroll ticks. `powf` is the parameter
    `pow`; only branch and bound facts are stated. */
module ScrollEngine {
  import opened Common
  import opened Configuration
  import opened Device
  import opened Pointer
  import opened Motion

  /** `ScrollState`: accumulated scroll pressure, smoothed velocity,
      seconds since the last emitted tick, and when the stick last moved. */
  datatype ScrollState = ScrollState(accum: real, momentum: real, timer: real, lastTime: Option<Time>)

  /** `ScrollState::new`: an engine at rest, the same state a reset
      leaves behind. */
  function NewScroll(): (r: ScrollState)
    ensures r.accum == 0.0 && r.momentum == 0.0 && r.timer == 0.0 && r.lastTime == None
    ensures forall s :: Reset(s) == r
  {
    ScrollState(0.0, 0.0, 0.0, None)
  }

  /** `ScrollState::reset`: every field back to zero, whatever the state. */
  function Reset(s: ScrollState): (r: ScrollState)
    ensures r.accum == 0.0 && r.momentum == 0.0 && r.timer == 0.0 && r.lastTime == None
  {
    s.(accum := 0.0, momentum := 0.0, timer := 0.0, lastTime := None)
  }

  /** The scroll stick: the right stick's Y axis when the left stick drives
      the pointer, the left stick's Y axis otherwise; that is, the Y axis
      of the stick that would drive the pointer under the other setting. */
  function ScrollStick(cfg: Config, pad: Pad): (r: AxisValue)
    ensures r == PointerStick(cfg.(useLeftStickForMouse := !cfg.useLeftStickForMouse), pad).1
  {
    if cfg.useLeftStickForMouse then pad.rightStickY else pad.leftStickY
  }

  /** Integer magnitude. */
  function IAbs(n: int): nat
  {
    if n < 0 then -n else n
  }

  const BASE_INTERVAL: real := 0.025

  /** The shortest interval the gate ever uses. */
  const MIN_INTERVAL: real := 0.0175

  /** The adaptive emission interval, chosen by the band of |accum|. */
  function Interval(accum: real): (r: real)
    ensures Abs(accum) > 0.8 ==> r == 0.0175
    ensures 0.5 < Abs(accum) <= 0.8 ==> r == 0.0225
    ensures Abs(accum) <= 0.5 ==> r == 0.025
    ensures MIN_INTERVAL <= r
  {
    var normalized := Min(Abs(accum), 1.0);
    if normalized > 0.8 then BASE_INTERVAL * 0.7
    else if normalized > 0.5 then BASE_INTERVAL * 0.9
    else BASE_INTERVAL
  }

  const SCROLL_THRESHOLD: real := 0.08

  /** Accumulation for one tick. Inside the scroll dead zone (70% of the
      configured dead zone) nothing changes; beyond it the momentum is
      blended, the timer advances by `dt` and the accumulator grows. */
  function Accumulate(pow: Pow, cfg: Config, s: ScrollState, stick: AxisValue, dt: real, now: Time): (r: ScrollState)
    ensures Abs(stick) <= cfg.deadZone * 0.7 ==> r == s
    ensures Abs(stick) > cfg.deadZone * 0.7 ==> r.timer == s.timer + dt && r.lastTime == Some(now)
  {
    var deadZone := cfg.deadZone * 0.7;
    if Abs(stick) > deadZone then
      var sensitivity := cfg.scrollSensitivity * 0.25;
      var normalized := (Abs(stick) - deadZone) / (1.0 - deadZone);
      var rawAmount := pow(normalized, 1.2) * Signum(stick) * sensitivity * dt;
      var momentum := s.momentum * 0.75 + rawAmount * (1.0 - 0.75);
      ScrollState(s.accum + rawAmount * 0.7 + momentum * 0.3, momentum, s.timer + dt, Some(now))
    else
      s
  }

  datatype Emission = Emission(state: ScrollState, amount: int)

  /** The emission gate. A tick fires exactly when |accum| >= 0.08 and the
      timer has reached the adaptive interval; firing resets the timer,
      yields 1 tick (|accum| <= 0.8) or 2 to 3 ticks (|accum| > 0.8) in the
      accumulator's direction, and shrinks the accumulator toward zero
      without flipping its sign. */
  function Gate(s: ScrollState): (r: Emission)
    ensures r.amount != 0 <==> Abs(s.accum) >= SCROLL_THRESHOLD && s.timer >= Interval(s.accum)
    ensures r.amount == 0 ==> r.state == s
    ensures r.amount != 0 ==> r.state == s.(accum := r.state.accum, timer := 0.0)
    ensures r.amount != 0 ==> (r.amount > 0 <==> s.accum > 0.0)
    ensures r.amount != 0 && Abs(s.accum) <= 0.8 ==> IAbs(r.amount) == 1
    ensures r.amount != 0 && Abs(s.accum) > 0.8 ==> 2 <= IAbs(r.amount) <= 3
    ensures r.amount != 0 ==> Abs(r.state.accum) < Abs(s.accum) && r.state.accum * s.accum >= 0.0
  {
    if Abs(s.accum) >= SCROLL_THRESHOLD && s.timer >= Interval(s.accum) then
      var direction: int := if s.accum > 0.0 then 1 else -1;
      var strength := Min(Abs(s.accum), 1.5);
      var scale := if strength > 0.8 then 2.0 else 1.0;
      var rounded := Round(strength * scale) * direction;
      var amount := if rounded == 0 then direction else rounded;
      var reduction := IAbs(amount) as real * (if scale > 1.0 then 0.12 else 0.08);
      var accum := (s.accum - direction as real * reduction) * 0.92;
      Emission(s.(accum := accum, timer := 0.0), amount)
    else
      Emission(s, 0)
  }

  /** Doubling for a stick pushed past 0.85; otherwise the amount is kept.
      Either way the direction is kept. */
  function MagnitudeBoost(amount: int, stick: real): (r: int)
    ensures Abs(stick) > 0.85 ==> r == 2 * amount
    ensures Abs(stick) <= 0.85 ==> r == amount
    ensures (r > 0 <==> amount > 0) && (r < 0 <==> amount < 0)
  {
    if Abs(stick) > 0.85 then amount * 2 else amount
  }

  datatype ScrollOut = ScrollOut(state: ScrollState, actions: seq<Action>)

  /** One tick of scrolling: accumulate, gate, boost, and issue
      `mouse_scroll_y` with the sign reversed so that pushing the stick
      down scrolls down. At most one call is issued, of 1 to 3 ticks, or
      2, 4 or 6 when the stick is past 0.85. Without a call the state is
      the accumulated one; with a call only the accumulator and the timer
      differ from it: the timer is zero and the accumulator has shrunk
      toward zero without changing sign. */
  function ScrollStep(pow: Pow, cfg: Config, s: ScrollState, stick: AxisValue, dt: real, now: Time): (r: ScrollOut)
    ensures var acc := Accumulate(pow, cfg, s, stick, dt, now);
            (r.actions != [] <==> Abs(acc.accum) >= SCROLL_THRESHOLD && acc.timer >= Interval(acc.accum))
    ensures r.actions == [] ==> r.state == Accumulate(pow, cfg, s, stick, dt, now)
    ensures var acc := Accumulate(pow, cfg, s, stick, dt, now);
            r.actions != [] ==>
              && |r.actions| == 1 && r.actions[0].Scroll?
              && (r.actions[0].amount < 0 <==> acc.accum > 0.0)
              && r.state == acc.(accum := r.state.accum, timer := 0.0)
              && Abs(r.state.accum) < Abs(acc.accum)
              && (acc.accum > 0.0 ==> r.state.accum >= 0.0) && (acc.accum < 0.0 ==> r.state.accum <= 0.0)
    ensures r.actions != [] && Abs(stick) <= 0.85 ==> 1 <= IAbs(r.actions[0].amount) <= 3
    ensures r.actions != [] && Abs(stick) > 0.85 ==> IAbs(r.actions[0].amount) in {2, 4, 6}
  {
    var acc := Accumulate(pow, cfg, s, stick, dt, now);
    var e := Gate(acc);
    var amount := if e.amount != 0 then MagnitudeBoost(e.amount, stick) else 0;
    ScrollOut(e.state, if amount != 0 then [Scroll(-amount)] else [])
  }

  /** `ScrollState::reset` forgets the past: scrolling after a reset
      depends only on the new inputs, not on the state that was reset. */
  lemma ResetForgets(pow: Pow, cfg: Config, s1: ScrollState, s2: ScrollState, stick: AxisValue, dt: real, now: Time)
    ensures ScrollStep(pow, cfg, Reset(s1), stick, dt, now) == ScrollStep(pow, cfg, Reset(s2), stick, dt, now)
  {
  }

  datatype ScrollInput = ScrollInput(stick: AxisValue, dt: real, now: Time)

  /** Scrolling over several ticks: final state and all calls issued. */
  function ScrollRun(pow: Pow, cfg: Config, s: ScrollState, ins: seq<ScrollInput>): ScrollOut
    decreases |ins|
  {
    if |ins| == 0 then ScrollOut(s, [])
    else
      var first := ScrollStep(pow, cfg, s, ins[0].stick, ins[0].dt, ins[0].now);
      var rest := ScrollRun(pow, cfg, first.state, ins[1..]);
      ScrollOut(rest.state, first.actions + rest.actions)
  }

  function SumDt(ins: seq<ScrollInput>): real
    decreases |ins|
  {
    if |ins| == 0 then 0.0 else ins[0].dt + SumDt(ins[1..])
  }

  lemma {:induction false} SumDtNonNegative(ins: seq<ScrollInput>)
    requires forall i :: 0 <= i < |ins| ==> ins[i].dt >= 0.0
    ensures SumDt(ins) >= 0.0
    decreases |ins|
  {
    if |ins| > 0 {
      assert forall i :: 0 <= i < |ins[1..]| ==> ins[1..][i].dt >= 0.0 by {
        forall i | 0 <= i < |ins[1..]| ensures ins[1..][i].dt >= 0.0 {
          assert ins[1..][i] == ins[i + 1];
        }
      }
      SumDtNonNegative(ins[1..]);
    }
  }

  /** Emission never outpaces the shortest interval: from a timer value
      `timer`, no tick fires before at least `MIN_INTERVAL - timer` seconds
      of elapsed time. In particular, right after a tick (timer 0) the next
      one needs 0.0175 s. */
  lemma {:induction false} NoScrollWithinInterval(pow: Pow, cfg: Config, s: ScrollState, ins: seq<ScrollInput>)
    requires forall i :: 0 <= i < |ins| ==> ins[i].dt >= 0.0
    requires s.timer + SumDt(ins) < MIN_INTERVAL
    ensures ScrollRun(pow, cfg, s, ins).actions == []
    decreases |ins|
  {
    if |ins| > 0 {
      var first := ScrollStep(pow, cfg, s, ins[0].stick, ins[0].dt, ins[0].now);
      var acc := Accumulate(pow, cfg, s, ins[0].stick, ins[0].dt, ins[0].now);
      assert forall i :: 0 <= i < |ins[1..]| ==> ins[1..][i].dt >= 0.0 by {
        forall i | 0 <= i < |ins[1..]| ensures ins[1..][i].dt >= 0.0 {
          assert ins[1..][i] == ins[i + 1];
        }
      }
      SumDtNonNegative(ins[1..]);
      assert acc.timer + SumDt(ins[1..]) < MIN_INTERVAL;
      assert first.actions == [] && first.state == acc;
      NoScrollWithinInterval(pow, cfg, acc, ins[1..]);
    }
  }
}

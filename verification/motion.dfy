/** The analog pointer path: stick selection, dead zone, response shaping,
    mode multipliers, and the truncate-and-carry step that turns speed into
    whole-pixel moves. `powf` is the parameter `pow`, left uninterpreted;
    only branch and bound facts are stated. */
module Motion {
  import opened Common
  import opened Buttons
  import opened Configuration
  import opened Device
  import opened Pointer

  /** `dead_zone.min(0.05)`: the configured dead zone, capped at 0.05. */
  function EffectiveDeadZone(cfg: Config): (dz: real)
    ensures dz <= 0.05 && dz <= cfg.deadZone
    ensures dz == cfg.deadZone || dz == 0.05
  {
    Min(cfg.deadZone, 0.05)
  }

  /** `mouse_sensitivity.max(40.0)`. */
  function BaseSensitivity(cfg: Config): (s: real)
    ensures s >= 40.0 && s >= cfg.mouseSensitivity
    ensures s == cfg.mouseSensitivity || s == 40.0
  {
    Max(cfg.mouseSensitivity, 40.0)
  }

  /** `mouse_acceleration.max(1.3)`. */
  function Acceleration(cfg: Config): (a: real)
    ensures a >= 1.3 && a >= cfg.mouseAcceleration
    ensures a == cfg.mouseAcceleration || a == 1.3
  {
    Max(cfg.mouseAcceleration, 1.3)
  }

  /** The shaped deflection of one axis: zero inside the dead zone, else
      the normalised excess raised to 0.8, carrying the reading's sign. */
  function Shape(pow: Pow, v: real, dz: real): (r: real)
    requires dz <= 0.05
    ensures Abs(v) <= dz ==> r == 0.0
  {
    if Abs(v) > dz then pow((Abs(v) - dz) / (1.0 - dz), 0.8) * Signum(v) else 0.0
  }

  /** Shaping is odd-symmetric in the reading (away from zero, which
      `signum` reads as positive). */
  lemma ShapeOdd(pow: Pow, v: real, dz: real)
    requires dz <= 0.05
    requires v != 0.0
    ensures Shape(pow, -v, dz) == -Shape(pow, v, dz)
  {
  }

  /** The stick pair that drives the pointer: the left stick's X and Y
      axes when the configuration says so, the right stick's otherwise. */
  function PointerStick(cfg: Config, pad: Pad): (r: (real, real))
    ensures cfg.useLeftStickForMouse ==> r == (pad.leftStickX, pad.leftStickY)
    ensures !cfg.useLeftStickForMouse ==> r == (pad.rightStickX, pad.rightStickY)
  {
    if cfg.useLeftStickForMouse then (pad.leftStickX, pad.leftStickY)
    else (pad.rightStickX, pad.rightStickY)
  }

  /** Horizontal contribution: zero in the dead zone, negated when X is
      inverted. */
  function XMove(pow: Pow, cfg: Config, x: real): (r: real)
    ensures Abs(x) <= EffectiveDeadZone(cfg) ==> r == 0.0
    ensures Abs(r) == Abs(Shape(pow, x, EffectiveDeadZone(cfg)))
  {
    var s := Shape(pow, x, EffectiveDeadZone(cfg));
    if cfg.invertXAxis then -s else s
  }

  /** Vertical contribution: the horizontal rule with the inversion flag
      reversed, so Y is negated by default to match screen coordinates
      and not negated when Y is inverted. */
  function YMove(pow: Pow, cfg: Config, y: real): (r: real)
    ensures r == -XMove(pow, cfg.(invertXAxis := cfg.invertYAxis), y)
  {
    var s := Shape(pow, y, EffectiveDeadZone(cfg));
    if cfg.invertYAxis then s else -s
  }

  /** Flipping an axis's inversion flag negates that axis's contribution;
      without inversion X follows the reading's sign and Y opposes it. */
  lemma AxisInversion(pow: Pow, cfg: Config, v: real)
    ensures XMove(pow, cfg.(invertXAxis := !cfg.invertXAxis), v) == -XMove(pow, cfg, v)
    ensures YMove(pow, cfg.(invertYAxis := !cfg.invertYAxis), v) == -YMove(pow, cfg, v)
    ensures !cfg.invertXAxis ==> XMove(pow, cfg, v) == Shape(pow, v, EffectiveDeadZone(cfg))
    ensures !cfg.invertYAxis ==> YMove(pow, cfg, v) == -Shape(pow, v, EffectiveDeadZone(cfg))
  {
  }

  /** Precision held scales speed by 0.3, turbo by 2.0, both by both. */
  function ModeMultiplier(cfg: Config, pressed: set<Button>): (m: real)
    ensures !ButtonMatches(pressed, cfg.precisionModeButton) && !ButtonMatches(pressed, cfg.turboModeButton) ==> m == 1.0
    ensures ButtonMatches(pressed, cfg.precisionModeButton) && !ButtonMatches(pressed, cfg.turboModeButton) ==> m == 0.3
    ensures !ButtonMatches(pressed, cfg.precisionModeButton) && ButtonMatches(pressed, cfg.turboModeButton) ==> m == 2.0
    ensures ButtonMatches(pressed, cfg.precisionModeButton) && ButtonMatches(pressed, cfg.turboModeButton) ==> m == 0.6
  {
    var m0 := 1.0;
    var m1 := if ButtonMatches(pressed, cfg.precisionModeButton) then m0 * 0.3 else m0;
    if ButtonMatches(pressed, cfg.turboModeButton) then m1 * 2.0 else m1
  }

  const BOOST_FACTOR: real := 2.5
  const EXTRA_SENSITIVITY: real := 1.8

  /** Pointer speed for one axis contribution `mv`, in pixels per second.
      Its magnitude is the shaped power scaled by the gain; whenever the
      power and the multiplier are not negative, it points the way `mv`
      does. */
  function Speed(pow: Pow, cfg: Config, mv: real, mult: real): (r: real)
    ensures pow(Abs(mv), Acceleration(cfg)) >= 0.0 && mult >= 0.0 ==>
              (mv > 0.0 ==> r >= 0.0) && (mv < 0.0 ==> r <= 0.0)
  {
    pow(Abs(mv), Acceleration(cfg)) * Signum(mv) * BaseSensitivity(cfg) * mult
      * BOOST_FACTOR * EXTRA_SENSITIVITY * (1.0 + 6.0 * Abs(mv))
  }

  /** Speed is linear in the mode multiplier: holding precision gives
      exactly 30% of the unmodified speed, turbo exactly 200%. */
  lemma SpeedScalesWithMode(pow: Pow, cfg: Config, mv: real, mult: real)
    ensures Speed(pow, cfg, mv, mult) == mult * Speed(pow, cfg, mv, 1.0)
  {
    var p := pow(Abs(mv), Acceleration(cfg)) * Signum(mv) * BaseSensitivity(cfg);
    var q := BOOST_FACTOR * EXTRA_SENSITIVITY * (1.0 + 6.0 * Abs(mv));
    assert Speed(pow, cfg, mv, mult) == (p * mult) * q;
    assert Speed(pow, cfg, mv, 1.0) == p * q;
  }

  /** Speed is odd in a nonzero contribution: mirroring the stick
      mirrors the speed. */
  lemma SpeedOdd(pow: Pow, cfg: Config, mv: real, mult: real)
    requires mv != 0.0
    ensures Speed(pow, cfg, -mv, mult) == -Speed(pow, cfg, mv, mult)
  {
    var g := pow(Abs(mv), Acceleration(cfg)) * BaseSensitivity(cfg) * mult
             * BOOST_FACTOR * EXTRA_SENSITIVITY * (1.0 + 6.0 * Abs(mv));
    assert Abs(-mv) == Abs(mv);
    assert Signum(-mv) == -Signum(mv);
    assert Speed(pow, cfg, mv, mult) == Signum(mv) * g;
    assert Speed(pow, cfg, -mv, mult) == Signum(-mv) * g;
  }

  /** An axis in its dead zone contributes no speed, provided `pow` maps a
      zero base to zero as `powf` does for positive exponents. */
  lemma DeadAxisHasNoSpeed(pow: Pow, cfg: Config, v: real, mult: real)
    requires Abs(v) <= EffectiveDeadZone(cfg)
    requires pow(0.0, Acceleration(cfg)) == 0.0
    ensures XMove(pow, cfg, v) == 0.0 && YMove(pow, cfg, v) == 0.0
    ensures Speed(pow, cfg, XMove(pow, cfg, v), mult) == 0.0
  {
  }

  /** Values strictly between 0.05 and 1 in magnitude are boosted by half
      so that slow deflection still reaches a whole pixel; all others pass
      through. The boost never changes the direction and never shrinks. */
  function BoostSmall(v: real): (r: real)
    ensures 0.05 < Abs(v) < 1.0 ==> r == v * 1.5
    ensures !(0.05 < Abs(v) < 1.0) ==> r == v
    ensures (v > 0.0 ==> r > 0.0) && (v < 0.0 ==> r < 0.0) && Abs(r) >= Abs(v)
  {
    if Abs(v) < 1.0 && Abs(v) > 0.05 then v * 1.5 else v
  }

  const MOMENTUM_FACTOR: real := 0.7

  datatype AxisOut = AxisOut(delta: int, carry: real)

  /** `delta` and `carry` split the wanted movement `want` into a whole
      step and a remainder scaled by the momentum factor: nothing is lost,
      the carry is below the factor unless the cast saturated, the delta
      and the carry both keep the direction of `want`, and the delta never
      overshoots `want`. */
  predicate Splits(delta: int, carry: real, want: real)
  {
    && delta as real + carry / MOMENTUM_FACTOR == want
    && (Abs(carry) < MOMENTUM_FACTOR || delta == I32_MIN || delta == I32_MAX)
    && (want > 0.0 ==> carry >= 0.0 && delta >= 0)
    && (want < 0.0 ==> carry <= 0.0 && delta <= 0)
    && Abs(delta as real) <= Abs(want)
  }

  /** Truncating and saturating any value, and keeping 70% of what is
      left, splits that value. */
  lemma CastSplits(v: real)
    ensures var d := SaturateI32(Trunc(v));
            Splits(d, (v - d as real) * MOMENTUM_FACTOR, v)
  {
    TruncRemainder(v);
    var d := SaturateI32(Trunc(v));
    var c := (v - d as real) * MOMENTUM_FACTOR;
    assert c / MOMENTUM_FACTOR == v - d as real;
    if InI32(Trunc(v)) {
      assert d == Trunc(v);
    } else if Trunc(v) > I32_MAX {
      assert d == I32_MAX && v > 0.0;
    } else {
      assert d == I32_MIN && v < 0.0;
    }
  }

  /** One axis of the truncate-and-carry step: the speed is accumulated on
      top of the carry, boosted, its integral part (cast to `i32`) emitted,
      and 70% of the remainder carried to the next tick. Nothing is lost:
      the emitted pixels plus the carry undone by 0.7 give back the boosted
      value; the carry is below 0.7 unless the cast saturated. */
  function AxisStep(carry: real, speed: real, dt: real): (r: AxisOut)
    ensures InI32(r.delta)
    ensures r.delta as real + r.carry / MOMENTUM_FACTOR == BoostSmall(carry + speed * dt)
    ensures Abs(r.carry) < MOMENTUM_FACTOR || r.delta == I32_MIN || r.delta == I32_MAX
    ensures r.carry * BoostSmall(carry + speed * dt) >= 0.0
    ensures Abs(r.delta as real) <= Abs(BoostSmall(carry + speed * dt))
    ensures Splits(r.delta, r.carry, BoostSmall(carry + speed * dt))
  {
    var boosted := BoostSmall(carry + speed * dt);
    var d := SaturateI32(Trunc(boosted));
    CastSplits(boosted);
    AxisOut(d, (boosted - d as real) * MOMENTUM_FACTOR)
  }

  /** `AxisStep`'s split, as a fact about one given call. */
  lemma AxisStepSplits(carry: real, speed: real, dt: real)
    ensures Splits(AxisStep(carry, speed, dt).delta, AxisStep(carry, speed, dt).carry, BoostSmall(carry + speed * dt))
  {
  }

  /** One axis over several ticks; `steps[i]` is tick i's displacement
      `speed * dt`. Returns the pixels emitted in total and the final carry. */
  function AxisRun(carry: real, steps: seq<real>): (r: AxisOut)
    decreases |steps|
  {
    if |steps| == 0 then AxisOut(0, carry)
    else
      var first := AxisStep(carry, steps[0], 1.0);
      var rest := AxisRun(first.carry, steps[1..]);
      AxisOut(first.delta + rest.delta, rest.carry)
  }

  /** The carry keeps only 70% of the remainder, so motion is lost: with a
      small carry and per-tick displacements of at most 0.015 pixels, no
      pixel is ever emitted and the carry stays at most 0.035, however many
      ticks accumulate. */
  lemma {:induction false} SlowAxisNeverMoves(carry: real, steps: seq<real>)
    requires Abs(carry) <= 0.035
    requires forall i :: 0 <= i < |steps| ==> Abs(steps[i]) <= 0.015
    ensures AxisRun(carry, steps).delta == 0
    ensures Abs(AxisRun(carry, steps).carry) <= 0.035
    decreases |steps|
  {
    if |steps| > 0 {
      var first := AxisStep(carry, steps[0], 1.0);
      assert Abs(carry + steps[0] * 1.0) <= 0.05;
      assert first.delta == 0;
      assert first.carry == MOMENTUM_FACTOR * (carry + steps[0]);
      assert forall i :: 0 <= i < |steps[1..]| ==> Abs(steps[1..][i]) <= 0.015 by {
        forall i | 0 <= i < |steps[1..]| ensures Abs(steps[1..][i]) <= 0.015 {
          assert steps[1..][i] == steps[i + 1];
        }
      }
      SlowAxisNeverMoves(first.carry, steps[1..]);
    }
  }

  /** A constant displacement of 0.015 pixels per tick adds up to any
      distance yet moves the pointer not at all. */
  lemma CarryIsNotConserved(n: nat)
    ensures AxisRun(0.0, seq(n, i => 0.015)).delta == 0
  {
    SlowAxisNeverMoves(0.0, seq(n, i => 0.015));
  }

  datatype Carry = Carry(x: real, y: real)

  const NoCarry: Carry := Carry(0.0, 0.0)

  datatype MotionOut = MotionOut(carry: Carry, dx: int, dy: int, actions: seq<Action>)

  /** A moving tick: both axes take the truncate-and-carry step on their
      speed, and a move is issued exactly when a delta is nonzero. */
  function Drive(pow: Pow, cfg: Config, mult: real, carry: Carry, xm: real, ym: real, dt: real): (r: MotionOut)
    ensures Splits(r.dx, r.carry.x, BoostSmall(carry.x + Speed(pow, cfg, xm, mult) * dt))
    ensures Splits(r.dy, r.carry.y, BoostSmall(carry.y + Speed(pow, cfg, ym, mult) * dt))
    ensures r.actions == (if r.dx != 0 || r.dy != 0 then [Move(r.dx, r.dy)] else [])
    ensures InI32(r.dx) && InI32(r.dy)
  {
    AxisStepSplits(carry.x, Speed(pow, cfg, xm, mult), dt);
    AxisStepSplits(carry.y, Speed(pow, cfg, ym, mult), dt);
    var ox := AxisStep(carry.x, Speed(pow, cfg, xm, mult), dt);
    var oy := AxisStep(carry.y, Speed(pow, cfg, ym, mult), dt);
    MotionOut(
      Carry(ox.carry, oy.carry), ox.delta, oy.delta,
      if ox.delta != 0 || oy.delta != 0 then [Move(ox.delta, oy.delta)] else [])
  }

  /** One tick of pointer motion. With both contributions zero nothing
      happens and the carry is kept; otherwise each axis takes the
      truncate-and-carry step on its speed, and a move is issued exactly
      when one of the deltas is nonzero. */
  function MotionStep(pow: Pow, cfg: Config, pad: Pad, carry: Carry, dt: real): (r: MotionOut)
    ensures var (x, y) := PointerStick(cfg, pad);
            var dz := EffectiveDeadZone(cfg);
            Abs(x) <= dz && Abs(y) <= dz ==> r == MotionOut(carry, 0, 0, [])
    ensures var (x, y) := PointerStick(cfg, pad);
            XMove(pow, cfg, x) == 0.0 && YMove(pow, cfg, y) == 0.0 ==> r == MotionOut(carry, 0, 0, [])
    ensures var x := PointerStick(cfg, pad).0;
            var y := PointerStick(cfg, pad).1;
            var mult := ModeMultiplier(cfg, pad.pressed);
            var wantX := BoostSmall(carry.x + Speed(pow, cfg, XMove(pow, cfg, x), mult) * dt);
            var wantY := BoostSmall(carry.y + Speed(pow, cfg, YMove(pow, cfg, y), mult) * dt);
            !(XMove(pow, cfg, x) == 0.0 && YMove(pow, cfg, y) == 0.0) ==>
              Splits(r.dx, r.carry.x, wantX) && Splits(r.dy, r.carry.y, wantY)
    ensures r.actions == (if r.dx != 0 || r.dy != 0 then [Move(r.dx, r.dy)] else [])
    ensures InI32(r.dx) && InI32(r.dy)
  {
    var x := PointerStick(cfg, pad).0;
    var y := PointerStick(cfg, pad).1;
    var xm := XMove(pow, cfg, x);
    var ym := YMove(pow, cfg, y);
    if xm == 0.0 && ym == 0.0 then MotionOut(carry, 0, 0, [])
    else Drive(pow, cfg, ModeMultiplier(cfg, pad.pressed), carry, xm, ym, dt)
  }

  /** The default configuration lies inside every use-time clamp, so the
      clamps leave it unchanged. */
  lemma DefaultClampsInert()
    ensures EffectiveDeadZone(Default()) == Default().deadZone
    ensures BaseSensitivity(Default()) == Default().mouseSensitivity
    ensures Acceleration(Default()) == Default().mouseAcceleration
  {
  }
}

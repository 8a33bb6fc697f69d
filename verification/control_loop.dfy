/** The worker loop of `GamepadController::new`, one iteration at a time:
    the once-a-second connection check, the event queue, and then pointer
    motion and scrolling while the pad is connected. Each iteration is a
    pure step from a `LoopState` and what the iteration observes (`Tick`)
    to the next state and the pointer calls issued, in order. */
module ControlLoop {
  import opened Common
  import opened Buttons
  import opened Configuration
  import opened Device
  import opened Pointer
  import opened Dispatch
  import opened Connection
  import opened Motion
  import opened ScrollEngine

  /** `connection_check_interval`, in seconds. */
  const CHECK_INTERVAL: real := 1.0

  /** What one iteration observes: the clock, the configuration behind the
      mutex, whether gilrs reports the pad connected at the check, the
      queued events, the pad's axes and held buttons, and the iteration
      order of the button-state `HashMap`. */
  datatype Tick = Tick(now: Time, cfg: Config, present: bool, events: seq<Event>, pad: Pad, order: FlushOrder)

  /** The worker's own variables plus the connection state it shares. */
  datatype LoopState = LoopState(
    padId: PadId,
    conn: Conn,
    lastCheck: Time,
    lastUpdate: Time,
    marks: Marks,
    carry: Carry,
    scroll: ScrollState)

  /** The state when the worker thread starts. */
  function Init(padId: PadId, now: Time): (st: LoopState)
    ensures Inv(st.conn) && st.conn.connected && st.marks == NoMarks && st.padId == padId
  {
    LoopState(padId, Initial(now), now, now, NoMarks, NoCarry, NewScroll())
  }

  datatype Stepped = Stepped(st: LoopState, actions: seq<Action>)

  /** A connection check is due once a full interval has elapsed since the
      last one; in particular never at or before the last check. */
  function Due(st: LoopState, now: Time): (r: bool)
    ensures r <==> now >= st.lastCheck + CHECK_INTERVAL
    ensures r ==> now > st.lastCheck
  {
    now - st.lastCheck >= CHECK_INTERVAL
  }

  /** Outcome of the connection check: skip the rest of the iteration
      (after issuing `actions`), or carry on with the state `st`. */
  datatype Polled = Skip(st: LoopState, actions: seq<Action>) | Go(st: LoopState)

  /** The connection check. A missing pad skips the iteration; if it was
      connected, the loss is recorded and the held buttons are released.
      A present pad that was disconnected is restored. Nothing else
      changes. */
  function Poll(st: LoopState, t: Tick): (r: Polled)
    ensures r.Skip? <==> !t.present
    ensures !t.present && st.conn.connected ==>
              r.st == st.(conn := Lose(st.conn, t.now), marks := NoMarks) &&
              forall a :: a in r.actions ==> a.Up? && st.marks.Get(a.button)
    ensures !t.present && !st.conn.connected ==> r == Skip(st, [])
    ensures t.present ==> r.st == st.(conn := r.st.conn) && r.st.conn.connected
    ensures t.present && st.conn.connected ==> r.st == st
    ensures t.present && !st.conn.connected ==> r.st.conn == Restore(st.conn, t.now)
  {
    if !t.present then
      if st.conn.connected then
        var f := Flush(st.marks, t.order);
        Skip(st.(conn := Lose(st.conn, t.now), marks := f.marks), f.actions)
      else
        Skip(st, [])
    else if !st.conn.connected then
      Go(st.(conn := Restore(st.conn, t.now)))
    else
      Go(st)
  }

  /** One event from the queue. Events of other pads are dropped. A press
      or release is dispatched under the button's canonical name: a press
      marks and presses every mapped pointer button of that name (plus the
      double click), a release unmarks and releases every marked one. A
      disconnection is recorded and releases every held button. Only the
      connection and the marks can change, and only button calls are
      issued. */
  function HandleEvent(cfg: Config, st: LoopState, e: Event, now: Time, order: FlushOrder): (r: Stepped)
    ensures e.id != st.padId ==> r == Stepped(st, [])
    ensures r.st == st.(conn := r.st.conn, marks := r.st.marks)
    ensures r.st.conn.lastActivity == st.conn.lastActivity
    ensures r.st.conn.connected <==> st.conn.connected && !(e.id == st.padId && e.kind.Disconnected?)
    ensures Inv(st.conn) ==> Inv(r.st.conn)
    ensures forall a :: a in r.actions ==> IsButtonAction(a)
    ensures e.id == st.padId && e.kind.ButtonPressed? ==>
              var name := ButtonToString(e.kind.button);
              && (forall c :: r.st.marks.Get(c) == (st.marks.Get(c) || name == Mapping(cfg, c)))
              && (forall c :: Count(r.actions, Down(c)) ==
                    (if name == Mapping(cfg, c) then 1 else 0)
                    + (if c == Left && name == cfg.doubleClickButton then 2 else 0))
    ensures e.id == st.padId && e.kind.ButtonReleased? ==>
              var name := ButtonToString(e.kind.button);
              && (forall c :: r.st.marks.Get(c) == (st.marks.Get(c) && name != Mapping(cfg, c)))
              && (forall c :: Count(r.actions, Up(c)) ==
                    (if st.marks.Get(c) && name == Mapping(cfg, c) then 1 else 0))
  {
    if e.id != st.padId then Stepped(st, [])
    else
      match e.kind
      case ButtonPressed(b) =>
        var d := Press(cfg, st.marks, ButtonToString(b));
        PressDownCounts(cfg, st.marks, ButtonToString(b));
        Stepped(st.(marks := d.marks), d.actions)
      case ButtonReleased(b) =>
        var d := Release(cfg, st.marks, ButtonToString(b));
        ReleaseUpCounts(cfg, st.marks, ButtonToString(b));
        Stepped(st.(marks := d.marks), d.actions)
      case Disconnected =>
        var f := Flush(st.marks, order);
        Stepped(st.(conn := Lose(st.conn, now), marks := f.marks), f.actions)
      case Other =>
        Stepped(st, [])
  }

  /** A disconnection event of the pad records the loss at `now`, clears
      every mark and releases exactly the held buttons once each. */
  lemma DisconnectEventFlushes(cfg: Config, st: LoopState, e: Event, now: Time, order: FlushOrder, c: MouseButton)
    requires e.id == st.padId && e.kind.Disconnected?
    ensures var r := HandleEvent(cfg, st, e, now, order);
            r.st == st.(conn := Lose(st.conn, now), marks := NoMarks) &&
            r.st.conn.lostTime == Some(now) && !r.st.conn.connected &&
            (forall a :: a in r.actions ==> a.Up?) &&
            Count(r.actions, Up(c)) == (if st.marks.Get(c) then 1 else 0)
  {
    FlushCounts(st.marks, order, c);
  }

  /** Some event of the queue reports that pad `id` disconnected. */
  predicate DisconnectIn(events: seq<Event>, id: PadId) {
    exists i :: 0 <= i < |events| && events[i].id == id && events[i].kind.Disconnected?
  }

  /** Draining the event queue in order. The pad ends up connected exactly
      when it was and none of its own events reports a disconnection. */
  function ProcessEvents(cfg: Config, st: LoopState, events: seq<Event>, now: Time, order: FlushOrder): (r: Stepped)
    ensures r.st == st.(conn := r.st.conn, marks := r.st.marks)
    ensures r.st.conn.lastActivity == st.conn.lastActivity
    ensures r.st.conn.connected <==> st.conn.connected && !DisconnectIn(events, st.padId)
    ensures Inv(st.conn) ==> Inv(r.st.conn)
    ensures forall a :: a in r.actions ==> IsButtonAction(a)
    decreases |events|
  {
    if |events| == 0 then Stepped(st, [])
    else
      var h := HandleEvent(cfg, st, events[0], now, order);
      var rest := ProcessEvents(cfg, h.st, events[1..], now, order);
      assert DisconnectIn(events, st.padId) <==>
             (events[0].id == st.padId && events[0].kind.Disconnected?) || DisconnectIn(events[1..], st.padId) by {
        if DisconnectIn(events, st.padId) && !(events[0].id == st.padId && events[0].kind.Disconnected?) {
          var i :| 0 <= i < |events| && events[i].id == st.padId && events[i].kind.Disconnected?;
          assert events[1..][i - 1] == events[i];
        }
        if DisconnectIn(events[1..], st.padId) {
          var i :| 0 <= i < |events[1..]| && events[1..][i].id == st.padId && events[1..][i].kind.Disconnected?;
          assert events[i + 1] == events[1..][i];
        }
      }
      Stepped(rest.st, h.actions + rest.actions)
  }

  /** `duration_since(last_update)`, which saturates at zero. */
  function Elapsed(st: LoopState, now: Time): (dt: real)
    ensures dt >= 0.0
    ensures now >= st.lastUpdate ==> dt == now - st.lastUpdate
  {
    Max(now - st.lastUpdate, 0.0)
  }

  /** The rest of an iteration once the check lets it proceed: stamp the
      activity time, drain the events, and, if still connected, move the
      pointer and the wheel over the time since the last update. */
  function Proceed(pow: Pow, s: LoopState, t: Tick): (r: Stepped)
    ensures r.st.padId == s.padId && r.st.lastCheck == s.lastCheck
    ensures Inv(s.conn) ==> Inv(r.st.conn)
    ensures r.st.conn.lastActivity == t.now
    ensures r.st.conn.connected <==> s.conn.connected && !DisconnectIn(t.events, s.padId)
    ensures !r.st.conn.connected ==>
              r.st.carry == s.carry && r.st.scroll == s.scroll && r.st.lastUpdate == s.lastUpdate &&
              forall a :: a in r.actions ==> IsButtonAction(a)
    ensures r.st.conn.connected ==> r.st.lastUpdate == t.now
  {
    var ev := ProcessEvents(t.cfg, s.(conn := s.conn.(lastActivity := t.now)), t.events, t.now, t.order);
    if !ev.st.conn.connected then ev
    else
      var dt := Elapsed(s, t.now);
      var m := MotionStep(pow, t.cfg, t.pad, ev.st.carry, dt);
      var sc := ScrollStep(pow, t.cfg, ev.st.scroll, ScrollStick(t.cfg, t.pad), dt, t.now);
      Stepped(ev.st.(lastUpdate := t.now, carry := m.carry, scroll := sc.state), ev.actions + (m.actions + sc.actions))
  }

  /** A connected iteration moves the pointer and the wheel: carry and
      scroll state are those of `MotionStep` and `ScrollStep` over the time
      since the last update, and the calls end with their calls, after
      nothing but button calls from the events. */
  lemma ConnectedProceedMoves(pow: Pow, s: LoopState, t: Tick)
    ensures var r := Proceed(pow, s, t);
            var dt := Elapsed(s, t.now);
            var m := MotionStep(pow, t.cfg, t.pad, s.carry, dt);
            var sc := ScrollStep(pow, t.cfg, s.scroll, ScrollStick(t.cfg, t.pad), dt, t.now);
            var tail := m.actions + sc.actions;
            r.st.conn.connected ==>
              && r.st.carry == m.carry && r.st.scroll == sc.state
              && |tail| <= |r.actions| && r.actions[|r.actions| - |tail|..] == tail
              && forall i :: 0 <= i < |r.actions| - |tail| ==> IsButtonAction(r.actions[i])
  {
    var ev := ProcessEvents(t.cfg, s.(conn := s.conn.(lastActivity := t.now)), t.events, t.now, t.order);
    if ev.st.conn.connected {
      var tail := MotionStep(pow, t.cfg, t.pad, s.carry, Elapsed(s, t.now)).actions
        + ScrollStep(pow, t.cfg, s.scroll, ScrollStick(t.cfg, t.pad), Elapsed(s, t.now), t.now).actions;
      var r := Proceed(pow, s, t);
      assert r.actions == ev.actions + tail;
      assert forall i :: 0 <= i < |ev.actions| ==> ev.actions[i] in ev.actions;
    }
  }

  /** One iteration of the worker loop. */
  function Step(pow: Pow, st: LoopState, t: Tick): (r: Stepped)
    ensures r.st.padId == st.padId
    ensures Inv(st.conn) ==> Inv(r.st.conn)
    ensures r.st.lastCheck == (if Due(st, t.now) then t.now else st.lastCheck)
    ensures !r.st.conn.connected ==>
              r.st.carry == st.carry && r.st.scroll == st.scroll && r.st.lastUpdate == st.lastUpdate &&
              forall a :: a in r.actions ==> IsButtonAction(a)
    ensures r.st.conn.connected ==> r.st.lastUpdate == t.now && r.st.conn.lastActivity == t.now
  {
    var polled := if Due(st, t.now) then Poll(st.(lastCheck := t.now), t) else Go(st);
    match polled
    case Skip(s, acts) => Stepped(s, acts)
    case Go(s) => Proceed(pow, s, t)
  }

  /** Connection checks are at least an interval apart: after an iteration
      that ran a check, no later iteration less than a second on runs
      another. */
  lemma ChecksSpaced(pow: Pow, st: LoopState, t: Tick, later: Time)
    requires Due(st, t.now) && later < t.now + CHECK_INTERVAL
    ensures !Due(Step(pow, st, t).st, later)
  {
  }

  /** An iteration that ends connected moved the pointer and the wheel
      from the state it started with, over the time since the last update. */
  lemma ConnectedStepMoves(pow: Pow, st: LoopState, t: Tick)
    ensures var r := Step(pow, st, t);
            var dt := Elapsed(st, t.now);
            var m := MotionStep(pow, t.cfg, t.pad, st.carry, dt);
            var sc := ScrollStep(pow, t.cfg, st.scroll, ScrollStick(t.cfg, t.pad), dt, t.now);
            var tail := m.actions + sc.actions;
            r.st.conn.connected ==>
              && r.st.carry == m.carry && r.st.scroll == sc.state
              && |tail| <= |r.actions| && r.actions[|r.actions| - |tail|..] == tail
              && forall i :: 0 <= i < |r.actions| - |tail| ==> IsButtonAction(r.actions[i])
  {
    var polled := if Due(st, t.now) then Poll(st.(lastCheck := t.now), t) else Go(st);
    if polled.Go? {
      ConnectedProceedMoves(pow, polled.st, t);
    }
  }

  /** Whether the pad is connected after an iteration: a check that finds
      it missing disconnects it, one that finds it present connects it,
      and an own disconnection event disconnects it. */
  lemma StepConnectivity(pow: Pow, st: LoopState, t: Tick)
    ensures Step(pow, st, t).st.conn.connected <==>
              !(Due(st, t.now) && !t.present) &&
              (st.conn.connected || Due(st, t.now)) &&
              !DisconnectIn(t.events, st.padId)
  {
  }

  /** A check that finds a connected pad missing records the loss, clears
      every mark, releases exactly the held buttons once each, and issues
      nothing else; the rest of the state is untouched. */
  lemma StepDetectsLoss(pow: Pow, st: LoopState, t: Tick, c: MouseButton)
    requires Due(st, t.now) && !t.present && st.conn.connected
    ensures var r := Step(pow, st, t);
            r.st == st.(lastCheck := t.now, conn := Lose(st.conn, t.now), marks := NoMarks) &&
            r.st.conn.lostTime == Some(t.now) &&
            (forall a :: a in r.actions ==> a.Up?) &&
            Count(r.actions, Up(c)) == (if st.marks.Get(c) then 1 else 0)
  {
    FlushCounts(st.marks, t.order, c);
  }

  /** A check that finds a pad still missing while it is already marked
      disconnected only moves the check time: no call is issued and the
      marks are kept. */
  lemma StepWhileAbsent(pow: Pow, st: LoopState, t: Tick)
    requires Due(st, t.now) && !t.present && !st.conn.connected
    ensures Step(pow, st, t) == Stepped(st.(lastCheck := t.now), [])
  {
  }

  /** A check that finds a disconnected pad present again restores it:
      loss time cleared and activity stamped, and (absent a new
      disconnection event) pointer processing resumes in the same
      iteration with the whole outage as its time step. */
  lemma StepReconnects(pow: Pow, st: LoopState, t: Tick)
    requires Due(st, t.now) && t.present && !st.conn.connected
    requires !DisconnectIn(t.events, st.padId)
    ensures var r := Step(pow, st, t);
            r.st.conn == Conn(true, None, t.now) && r.st.lastUpdate == t.now
    ensures t.now >= st.lastUpdate ==>
              var r := Step(pow, st, t);
              var outage := t.now - st.lastUpdate;
              && r.st.carry == MotionStep(pow, t.cfg, t.pad, st.carry, outage).carry
              && r.st.scroll == ScrollStep(pow, t.cfg, st.scroll, ScrollStick(t.cfg, t.pad), outage, t.now).state
  {
  }

  /** An iteration that ends disconnected moves neither the pointer nor
      the wheel. */
  lemma DisconnectedStepIsInert(pow: Pow, st: LoopState, t: Tick)
    ensures !Step(pow, st, t).st.conn.connected ==>
              forall a :: a in Step(pow, st, t).actions ==> !a.Move? && !a.Scroll?
  {
  }

  /** The events of pad `id`, in queue order. */
  function OwnEvents(events: seq<Event>, id: PadId): (r: seq<Event>)
    ensures |r| <= |events|
    ensures forall e :: e in r ==> e in events && e.id == id
    decreases |events|
  {
    if |events| == 0 then []
    else if events[0].id == id then [events[0]] + OwnEvents(events[1..], id)
    else OwnEvents(events[1..], id)
  }

  /** Events of other pads are ignored: draining the whole queue is the
      same as draining only the pad's own events. */
  lemma {:induction false} ForeignEventsIgnored(cfg: Config, st: LoopState, events: seq<Event>, now: Time, order: FlushOrder)
    ensures ProcessEvents(cfg, st, events, now, order) == ProcessEvents(cfg, st, OwnEvents(events, st.padId), now, order)
    decreases |events|
  {
    if |events| > 0 {
      var h := HandleEvent(cfg, st, events[0], now, order);
      ForeignEventsIgnored(cfg, h.st, events[1..], now, order);
      if events[0].id == st.padId {
        var own := OwnEvents(events, st.padId);
        assert own[0] == events[0];
        assert own[1..] == OwnEvents(events[1..], st.padId);
      }
    }
  }

  // ---------------------------------------------------------------------
  // Release symmetry over whole runs.
  // ---------------------------------------------------------------------

  /** No button is named like the double-click mapping, so double clicks
      never fire. */
  predicate DoubleClickInert(cfg: Config) {
    forall b: Button :: ButtonToString(b) != cfg.doubleClickButton
  }

  /** Pointer button `c` is tracked faithfully under `cfg`: always for the
      right and middle buttons, and for the left button when double clicks
      cannot fire. */
  predicate Tracked(cfg: Config, c: MouseButton) {
    c != Left || DoubleClickInert(cfg)
  }

  lemma EventBalanced(cfg: Config, st: LoopState, e: Event, now: Time, order: FlushOrder, c: MouseButton)
    requires Tracked(cfg, c)
    ensures var r := HandleEvent(cfg, st, e, now, order);
            Track(st.marks.Get(c), r.actions, c) == Some(r.st.marks.Get(c))
  {
    if e.id == st.padId {
      match e.kind
      case ButtonPressed(b) =>
        PressBalanced(cfg, st.marks, ButtonToString(b), c);
      case ButtonReleased(b) =>
        ReleaseBalanced(cfg, st.marks, ButtonToString(b), c);
      case Disconnected =>
        FlushBalanced(st.marks, order, c);
      case Other =>
    }
  }

  lemma {:induction false} EventsBalanced(cfg: Config, st: LoopState, events: seq<Event>, now: Time, order: FlushOrder, c: MouseButton)
    requires Tracked(cfg, c)
    ensures var r := ProcessEvents(cfg, st, events, now, order);
            Track(st.marks.Get(c), r.actions, c) == Some(r.st.marks.Get(c))
    decreases |events|
  {
    if |events| > 0 {
      var h := HandleEvent(cfg, st, events[0], now, order);
      var rest := ProcessEvents(cfg, h.st, events[1..], now, order);
      EventBalanced(cfg, st, events[0], now, order, c);
      EventsBalanced(cfg, h.st, events[1..], now, order, c);
      TrackAppend(st.marks.Get(c), h.actions, rest.actions, c);
    }
  }

  lemma ProceedBalanced(pow: Pow, s: LoopState, t: Tick, c: MouseButton)
    requires Tracked(t.cfg, c)
    ensures var r := Proceed(pow, s, t);
            Track(s.marks.Get(c), r.actions, c) == Some(r.st.marks.Get(c))
  {
    var s1 := s.(conn := s.conn.(lastActivity := t.now));
    var ev := ProcessEvents(t.cfg, s1, t.events, t.now, t.order);
    EventsBalanced(t.cfg, s1, t.events, t.now, t.order, c);
    if ev.st.conn.connected {
      var dt := Elapsed(s, t.now);
      var m := MotionStep(pow, t.cfg, t.pad, ev.st.carry, dt);
      var sc := ScrollStep(pow, t.cfg, ev.st.scroll, ScrollStick(t.cfg, t.pad), dt, t.now);
      TrackAppend(s.marks.Get(c), ev.actions, m.actions + sc.actions, c);
      TrackNoButtons(ev.st.marks.Get(c), m.actions + sc.actions, c);
    }
  }

  /** Each iteration keeps the mark of a tracked button equal to whether
      that button is held down, and never releases it when it is not. */
  lemma StepBalanced(pow: Pow, st: LoopState, t: Tick, c: MouseButton)
    requires Tracked(t.cfg, c)
    ensures var r := Step(pow, st, t);
            Track(st.marks.Get(c), r.actions, c) == Some(r.st.marks.Get(c))
  {
    if Due(st, t.now) {
      if !t.present && st.conn.connected {
        FlushBalanced(st.marks, t.order, c);
      } else if t.present {
        ProceedBalanced(pow, Poll(st.(lastCheck := t.now), t).st, t, c);
      }
    } else {
      ProceedBalanced(pow, st, t, c);
    }
  }

  /** The loop over a sequence of iterations. The worker keeps its pad
      and the connection invariant throughout, and when it ends connected
      its last update is the last iteration's time. */
  function Run(pow: Pow, st: LoopState, ticks: seq<Tick>): (r: Stepped)
    ensures r.st.padId == st.padId
    ensures Inv(st.conn) ==> Inv(r.st.conn)
    ensures |ticks| == 0 ==> r == Stepped(st, [])
    ensures |ticks| > 0 && r.st.conn.connected ==> r.st.lastUpdate == ticks[|ticks| - 1].now
    decreases |ticks|
  {
    if |ticks| == 0 then Stepped(st, [])
    else
      var first := Step(pow, st, ticks[0]);
      var rest := Run(pow, first.st, ticks[1..]);
      assert |ticks| > 1 ==> ticks[1..][|ticks| - 2] == ticks[|ticks| - 1];
      Stepped(rest.st, first.actions + rest.actions)
  }

  lemma {:induction false} RunBalanced(pow: Pow, st: LoopState, ticks: seq<Tick>, c: MouseButton)
    requires forall i :: 0 <= i < |ticks| ==> Tracked(ticks[i].cfg, c)
    ensures var r := Run(pow, st, ticks);
            Track(st.marks.Get(c), r.actions, c) == Some(r.st.marks.Get(c))
    decreases |ticks|
  {
    if |ticks| > 0 {
      var first := Step(pow, st, ticks[0]);
      var rest := Run(pow, first.st, ticks[1..]);
      StepBalanced(pow, st, ticks[0], c);
      assert forall i :: 0 <= i < |ticks[1..]| ==> Tracked(ticks[1..][i].cfg, c) by {
        forall i | 0 <= i < |ticks[1..]| ensures Tracked(ticks[1..][i].cfg, c) {
          assert ticks[1..][i] == ticks[i + 1];
        }
      }
      RunBalanced(pow, first.st, ticks[1..], c);
      TrackAppend(st.marks.Get(c), first.actions, rest.actions, c);
    }
  }

  /** From the start of the worker, every release of a tracked pointer
      button follows a press of it (the trace never releases a button that
      is up), and the final mark says exactly whether it is still down. */
  lemma TraceReleaseSymmetry(pow: Pow, padId: PadId, now: Time, ticks: seq<Tick>, c: MouseButton)
    requires forall i :: 0 <= i < |ticks| ==> Tracked(ticks[i].cfg, c)
    ensures var r := Run(pow, Init(padId, now), ticks);
            Track(false, r.actions, c) == Some(r.st.marks.Get(c))
  {
    RunBalanced(pow, Init(padId, now), ticks, c);
  }
}

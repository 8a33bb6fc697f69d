/** The event dispatcher: button presses and releases against the click
    mappings, the per-button "down" marks, and the release flush performed
    when the pad is lost. Pointer side effects are recorded as a sequence
    of emitted actions. */
module Dispatch {
  import opened Common
  import opened Buttons
  import opened Configuration
  import opened Pointer

  /** The `mouse_buttons_down` map, whose three keys always exist. */
  datatype Marks = Marks(left: bool, right: bool, middle: bool) {
    function Get(b: MouseButton): bool {
      match b
      case Left => left
      case Right => right
      case Middle => middle
    }
  }

  const NoMarks: Marks := Marks(false, false, false)

  /** The order in which the `HashMap` of marks yields its three keys; the
      language leaves it unspecified, so the model takes it as input. */
  type FlushOrder = o: seq<MouseButton> | |o| == 3 && o[0] != o[1] && o[0] != o[2] && o[1] != o[2]
    witness [Left, Right, Middle]

  /** The mapped configuration name for each pointer button. */
  function Mapping(cfg: Config, b: MouseButton): string {
    match b
    case Left => cfg.leftClickButton
    case Right => cfg.rightClickButton
    case Middle => cfg.middleClickButton
  }

  /** Both clicks of a double click, on the left pointer button. */
  const DoubleClick: seq<Action> := [Down(Left), Up(Left), Down(Left), Up(Left)]

  datatype Dispatched = Dispatched(marks: Marks, actions: seq<Action>)

  /** How many times `a` occurs in `acts`. */
  function Count(acts: seq<Action>, a: Action): nat
  {
    if |acts| == 0 then 0 else (if acts[0] == a then 1 else 0) + Count(acts[1..], a)
  }

  lemma {:induction false} CountAppend(xs: seq<Action>, ys: seq<Action>, a: Action)
    ensures Count(xs + ys, a) == Count(xs, a) + Count(ys, a)
  {
    if |xs| == 0 {
      assert xs + ys == ys;
    } else {
      assert (xs + ys)[1..] == xs[1..] + ys;
      CountAppend(xs[1..], ys, a);
    }
  }

  /** The single action `a` when `fire` holds, nothing otherwise. */
  function Emit(fire: bool, a: Action): seq<Action>
  {
    if fire then [a] else []
  }

  /** A `mouse_up` (when `up`) or `mouse_down` of button `b`. */
  function Click(up: bool, b: MouseButton): Action
  {
    if up then Up(b) else Down(b)
  }

  /** One click per selected pointer button, in the order left, right, middle. */
  function PerButton(l: bool, r: bool, m: bool, up: bool): seq<Action>
  {
    Emit(l, Click(up, Left)) + Emit(r, Click(up, Right)) + Emit(m, Click(up, Middle))
  }

  /** The clicks `PerButton` emits are exactly the selected ones. */
  lemma PerButtonMembers(l: bool, r: bool, m: bool, up: bool)
    ensures forall a :: a in PerButton(l, r, m, up) ==>
              (a == Click(up, Left) && l) || (a == Click(up, Right) && r) || (a == Click(up, Middle) && m)
  {
    var x, y, z := Emit(l, Click(up, Left)), Emit(r, Click(up, Right)), Emit(m, Click(up, Middle));
    assert PerButton(l, r, m, up) == x + y + z;
    forall a | a in x + y + z
      ensures (a == Click(up, Left) && l) || (a == Click(up, Right) && r) || (a == Click(up, Middle) && m)
    {
      assert a in x || a in y || a in z;
    }
  }

  lemma CountPerButton(l: bool, r: bool, m: bool, up: bool, c: MouseButton)
    ensures Count(PerButton(l, r, m, up), Click(up, c)) == (if Marks(l, r, m).Get(c) then 1 else 0)
  {
    var a := Click(up, c);
    CountAppend(Emit(l, Click(up, Left)) + Emit(r, Click(up, Right)), Emit(m, Click(up, Middle)), a);
    CountAppend(Emit(l, Click(up, Left)), Emit(r, Click(up, Right)), a);
  }

  /** A `ButtonPressed` event for the button named `name` (its
      `button_to_string`): every click mapping equal to the name fires, in
      the order left, right, middle, double click. Each mapped pointer
      button is marked down. */
  function Press(cfg: Config, marks: Marks, name: string): (r: Dispatched)
    ensures forall c :: r.marks.Get(c) == (marks.Get(c) || name == Mapping(cfg, c))
    ensures forall a :: a in r.actions ==> IsButtonAction(a)
    ensures name == cfg.doubleClickButton ==>
              |r.actions| >= 4 && r.actions[|r.actions| - 4..] == DoubleClick
  {
    var l := name == cfg.leftClickButton;
    var rt := name == cfg.rightClickButton;
    var m := name == cfg.middleClickButton;
    var d := name == cfg.doubleClickButton;
    PerButtonMembers(l, rt, m, false);
    Dispatched(
      Marks(marks.left || l, marks.right || rt, marks.middle || m),
      PerButton(l, rt, m, false) + (if d then DoubleClick else []))
  }

  /** A double click holds two `mouse_down` and two `mouse_up`, all on Left. */
  lemma CountDoubleClick(c: MouseButton)
    ensures Count(DoubleClick, Down(c)) == (if c == Left then 2 else 0)
    ensures Count(DoubleClick, Up(c)) == (if c == Left then 2 else 0)
  {
    assert DoubleClick[1..][1..][1..][1..] == [];
  }

  /** A press emits one `mouse_down` for each click mapping equal to the
      name, plus two more on Left for a double click. */
  lemma PressDownCount(cfg: Config, marks: Marks, name: string, c: MouseButton)
    ensures Count(Press(cfg, marks, name).actions, Down(c)) ==
              (if name == Mapping(cfg, c) then 1 else 0)
              + (if c == Left && name == cfg.doubleClickButton then 2 else 0)
  {
    var l, rt, m := name == cfg.leftClickButton, name == cfg.rightClickButton, name == cfg.middleClickButton;
    var d := name == cfg.doubleClickButton;
    assert Press(cfg, marks, name).actions == PerButton(l, rt, m, false) + (if d then DoubleClick else []);
    assert Marks(l, rt, m).Get(c) == (name == Mapping(cfg, c));
    DownCount(l, rt, m, d, c);
  }

  /** `PressDownCount` with the name comparisons already made. */
  lemma DownCount(l: bool, rt: bool, m: bool, d: bool, c: MouseButton)
    ensures Count(PerButton(l, rt, m, false) + (if d then DoubleClick else []), Down(c)) ==
              (if Marks(l, rt, m).Get(c) then 1 else 0) + (if c == Left && d then 2 else 0)
  {
    var downs := PerButton(l, rt, m, false);
    CountAppend(downs, if d then DoubleClick else [], Down(c));
    CountPerButton(l, rt, m, false, c);
    assert Click(false, c) == Down(c);
    CountDoubleClick(c);
  }

  /** The only `mouse_up`s a press emits are the two of a double click. */
  lemma PressUpCount(cfg: Config, marks: Marks, name: string, c: MouseButton)
    ensures Count(Press(cfg, marks, name).actions, Up(c)) ==
              (if c == Left && name == cfg.doubleClickButton then 2 else 0)
  {
    var downs := PerButton(name == cfg.leftClickButton, name == cfg.rightClickButton,
                           name == cfg.middleClickButton, false);
    var d := if name == cfg.doubleClickButton then DoubleClick else [];
    CountAppend(downs, d, Up(c));
    CountNone(downs, Up(c));
    CountDoubleClick(c);
  }

  /** A sequence of Downs holds no Up. */
  lemma {:induction false} CountNone(acts: seq<Action>, a: Action)
    requires a.Up?
    requires forall x :: x in acts ==> x.Down?
    ensures Count(acts, a) == 0
  {
    if |acts| > 0 {
      assert acts[0] in acts;
      CountNone(acts[1..], a);
    }
  }

  /** `PressDownCount` for every pointer button at once. */
  lemma PressDownCounts(cfg: Config, marks: Marks, name: string)
    ensures forall c :: Count(Press(cfg, marks, name).actions, Down(c)) ==
              (if name == Mapping(cfg, c) then 1 else 0)
              + (if c == Left && name == cfg.doubleClickButton then 2 else 0)
  {
    forall c {
      PressDownCount(cfg, marks, name, c);
    }
  }

  /** A `ButtonReleased` event for the button named `name`: a mapped
      pointer button is released only when it is marked down, and its mark
      is then cleared. */
  function Release(cfg: Config, marks: Marks, name: string): (r: Dispatched)
    ensures forall c :: r.marks.Get(c) == (marks.Get(c) && name != Mapping(cfg, c))
    ensures forall a :: a in r.actions ==> a.Up? && marks.Get(a.button)
  {
    var l := name == cfg.leftClickButton && marks.left;
    var rt := name == cfg.rightClickButton && marks.right;
    var m := name == cfg.middleClickButton && marks.middle;
    PerButtonMembers(l, rt, m, true);
    Dispatched(Marks(marks.left && !l, marks.right && !rt, marks.middle && !m), PerButton(l, rt, m, true))
  }

  /** `ReleaseCounts` for every pointer button at once. */
  lemma ReleaseUpCounts(cfg: Config, marks: Marks, name: string)
    ensures forall c :: Count(Release(cfg, marks, name).actions, Up(c)) ==
              (if marks.Get(c) && name == Mapping(cfg, c) then 1 else 0)
  {
    forall c {
      ReleaseCounts(cfg, marks, name, c);
    }
  }

  /** A release emits exactly one `mouse_up` for each marked button whose
      mapping equals the name, and none for any other. */
  lemma ReleaseCounts(cfg: Config, marks: Marks, name: string, c: MouseButton)
    ensures Count(Release(cfg, marks, name).actions, Up(c)) ==
              (if marks.Get(c) && name == Mapping(cfg, c) then 1 else 0)
  {
    var l := name == cfg.leftClickButton && marks.left;
    var rt := name == cfg.rightClickButton && marks.right;
    var m := name == cfg.middleClickButton && marks.middle;
    CountPerButton(l, rt, m, true, c);
  }

  /** One `mouse_up` per marked button, visited in `order`. */
  function FlushUps(marks: Marks, order: seq<MouseButton>): seq<Action>
  {
    if |order| == 0 then []
    else Emit(marks.Get(order[0]), Up(order[0])) + FlushUps(marks, order[1..])
  }

  lemma {:induction false} FlushUpsCount(marks: Marks, order: seq<MouseButton>, c: MouseButton)
    ensures Count(FlushUps(marks, order), Up(c)) == (if marks.Get(c) then multiset(order)[c] else 0)
  {
    if |order| > 0 {
      FlushUpsCount(marks, order[1..], c);
      CountAppend(Emit(marks.Get(order[0]), Up(order[0])), FlushUps(marks, order[1..]), Up(c));
      assert order == [order[0]] + order[1..];
      assert multiset(order) == multiset{order[0]} + multiset(order[1..]);
    }
  }

  lemma {:induction false} FlushUpsOnlyMarked(marks: Marks, order: seq<MouseButton>)
    ensures forall a :: a in FlushUps(marks, order) ==> a.Up? && marks.Get(a.button)
  {
    if |order| > 0 {
      FlushUpsOnlyMarked(marks, order[1..]);
    }
  }

  lemma FlushOrderCount(order: FlushOrder, c: MouseButton)
    ensures multiset(order)[c] == 1
  {
    assert order == [order[0], order[1], order[2]];
  }

  /** The loss flush: nothing but releases of marked buttons is emitted,
      and all marks are cleared. */
  function Flush(marks: Marks, order: FlushOrder): (r: Dispatched)
    ensures r.marks == NoMarks
    ensures forall a :: a in r.actions ==> a.Up? && marks.Get(a.button)
  {
    FlushUpsOnlyMarked(marks, order);
    Dispatched(NoMarks, FlushUps(marks, order))
  }

  /** The flush emits exactly one `mouse_up` for each marked button and
      none for an unmarked one. */
  lemma FlushCounts(marks: Marks, order: FlushOrder, c: MouseButton)
    ensures Count(Flush(marks, order).actions, Up(c)) == (if marks.Get(c) then 1 else 0)
  {
    FlushUpsCount(marks, order, c);
    FlushOrderCount(order, c);
  }

  // ---------------------------------------------------------------------
  // Release symmetry. `Track` follows one pointer button through a stream
  // of actions: a Down makes it held, an Up releases it, and an Up for a
  // button that is not held is a stray release (None).
  // ---------------------------------------------------------------------

  function TrackOne(held: bool, a: Action, b: MouseButton): Option<bool>
  {
    match a
    case Down(c) => if c == b then Some(true) else Some(held)
    case Up(c) => if c != b then Some(held) else if held then Some(false) else None
    case _ => Some(held)
  }

  function Track(held: bool, acts: seq<Action>, b: MouseButton): Option<bool>
    decreases |acts|
  {
    if |acts| == 0 then Some(held)
    else
      match TrackOne(held, acts[0], b)
      case None => None
      case Some(h) => Track(h, acts[1..], b)
  }

  /** Tracking a concatenation tracks the first part, then the second. */
  lemma {:induction false} TrackAppend(held: bool, xs: seq<Action>, ys: seq<Action>, b: MouseButton)
    ensures Track(held, xs + ys, b) ==
      match Track(held, xs, b)
      case None => None
      case Some(h) => Track(h, ys, b)
    decreases |xs|
  {
    if |xs| == 0 {
      assert xs + ys == ys;
    } else {
      assert (xs + ys)[0] == xs[0];
      assert (xs + ys)[1..] == xs[1..] + ys;
      match TrackOne(held, xs[0], b)
      case None =>
      case Some(h) => TrackAppend(h, xs[1..], ys, b);
    }
  }

  /** Actions that touch no pointer button leave every button as it was. */
  lemma {:induction false} TrackNoButtons(held: bool, acts: seq<Action>, b: MouseButton)
    requires forall a :: a in acts ==> !IsButtonAction(a)
    ensures Track(held, acts, b) == Some(held)
    decreases |acts|
  {
    if |acts| > 0 {
      assert acts[0] in acts;
      TrackNoButtons(held, acts[1..], b);
    }
  }

  lemma TrackEmit(held: bool, fire: bool, a: Action, c: MouseButton)
    ensures Track(held, Emit(fire, a), c) == if fire then TrackOne(held, a, c) else Some(held)
  {
    if fire {
      assert Emit(fire, a)[1..] == [];
    }
  }

  lemma TrackPerButtonDown(held: bool, l: bool, r: bool, m: bool, c: MouseButton)
    ensures Track(held, PerButton(l, r, m, false), c) == Some(held || Marks(l, r, m).Get(c))
  {
    var f := (b: MouseButton) => Click(false, b);
    TrackAppend(held, Emit(l, f(Left)) + Emit(r, f(Right)), Emit(m, f(Middle)), c);
    TrackAppend(held, Emit(l, f(Left)), Emit(r, f(Right)), c);
    TrackEmit(held, l, f(Left), c);
    var h1 := held || (l && c == Left);
    TrackEmit(h1, r, f(Right), c);
    var h2 := h1 || (r && c == Right);
    TrackEmit(h2, m, f(Middle), c);
  }

  lemma TrackPerButtonUp(held: bool, l: bool, r: bool, m: bool, c: MouseButton)
    requires Marks(l, r, m).Get(c) ==> held
    ensures Track(held, PerButton(l, r, m, true), c) == Some(held && !Marks(l, r, m).Get(c))
  {
    var f := (b: MouseButton) => Click(true, b);
    TrackAppend(held, Emit(l, f(Left)) + Emit(r, f(Right)), Emit(m, f(Middle)), c);
    TrackAppend(held, Emit(l, f(Left)), Emit(r, f(Right)), c);
    TrackEmit(held, l, f(Left), c);
    var h1 := held && !(l && c == Left);
    TrackEmit(h1, r, f(Right), c);
    var h2 := h1 && !(r && c == Right);
    TrackEmit(h2, m, f(Middle), c);
  }

  /** A press keeps the mark of `c` equal to the held state of `c`, unless
      it fires a double click on the left button. */
  lemma PressBalanced(cfg: Config, marks: Marks, name: string, c: MouseButton)
    requires c != Left || name != cfg.doubleClickButton
    ensures Track(marks.Get(c), Press(cfg, marks, name).actions, c) == Some(Press(cfg, marks, name).marks.Get(c))
  {
    var l := name == cfg.leftClickButton;
    var rt := name == cfg.rightClickButton;
    var m := name == cfg.middleClickButton;
    var d: seq<Action> := if name == cfg.doubleClickButton then DoubleClick else [];
    TrackAppend(marks.Get(c), PerButton(l, rt, m, false), d, c);
    TrackPerButtonDown(marks.Get(c), l, rt, m, c);
    var h := marks.Get(c) || Marks(l, rt, m).Get(c);
    if d == [] {
      assert Track(h, d, c) == Some(h);
    } else {
      assert c != Left;
      TrackNoButtonOf(h, d, c);
    }
  }

  /** Actions that never name `c` leave its held state alone. */
  lemma {:induction false} TrackNoButtonOf(held: bool, acts: seq<Action>, c: MouseButton)
    requires forall a :: a in acts ==> !(IsButtonAction(a) && a.button == c)
    ensures Track(held, acts, c) == Some(held)
    decreases |acts|
  {
    if |acts| > 0 {
      assert acts[0] in acts;
      TrackNoButtonOf(held, acts[1..], c);
    }
  }

  /** A release keeps every mark equal to the held state of its button and
      never releases a button that is not held. */
  lemma ReleaseBalanced(cfg: Config, marks: Marks, name: string, c: MouseButton)
    ensures Track(marks.Get(c), Release(cfg, marks, name).actions, c) == Some(Release(cfg, marks, name).marks.Get(c))
  {
    var l := name == cfg.leftClickButton && marks.left;
    var rt := name == cfg.rightClickButton && marks.right;
    var m := name == cfg.middleClickButton && marks.middle;
    var r := Release(cfg, marks, name);
    assert r.actions == PerButton(l, rt, m, true);
    assert r.marks.Get(c) == (marks.Get(c) && !Marks(l, rt, m).Get(c));
    TrackPerButtonUp(marks.Get(c), l, rt, m, c);
  }

  lemma {:induction false} FlushUpsBalanced(marks: Marks, order: seq<MouseButton>, c: MouseButton, held: bool)
    requires c in order ==> held == marks.Get(c)
    requires multiset(order)[c] <= 1
    ensures Track(held, FlushUps(marks, order), c) == Some(if c in order then false else held)
  {
    if |order| > 0 {
      var first := Emit(marks.Get(order[0]), Up(order[0]));
      assert order == [order[0]] + order[1..];
      TrackAppend(held, first, FlushUps(marks, order[1..]), c);
      if order[0] == c {
        assert c !in order[1..];
        FlushUpsBalanced(marks, order[1..], c, false);
      } else {
        FlushUpsBalanced(marks, order[1..], c, held);
      }
    }
  }

  /** The flush releases each held button exactly once and leaves none held. */
  lemma FlushBalanced(marks: Marks, order: FlushOrder, c: MouseButton)
    ensures Track(marks.Get(c), Flush(marks, order).actions, c) == Some(false)
  {
    FlushOrderCount(order, c);
    FlushUpsBalanced(marks, order, c, marks.Get(c));
  }

  /** When one button is the left click and another the double click,
      holding the first and pressing the second releases the left pointer
      button while its mark stays set, so releasing the first sends a
      second `mouse_up` for a button that is no longer held. The default
      mapping (South and North) is such a configuration. */
  lemma DoubleClickUnbalancesLeft(cfg: Config, held: string, dbl: string)
    requires cfg.leftClickButton == held && cfg.doubleClickButton == dbl && held != dbl
    requires cfg.rightClickButton != dbl && cfg.middleClickButton != dbl
    ensures var p1 := Press(cfg, NoMarks, held);
            var p2 := Press(cfg, p1.marks, dbl);
            var r := Release(cfg, p2.marks, held);
            Track(false, p1.actions + p2.actions + r.actions, Left) == None
  {
    var p1 := Press(cfg, NoMarks, held);
    var p2 := Press(cfg, p1.marks, dbl);
    var r := Release(cfg, p2.marks, held);
    assert p1.marks.left;
    assert p2.marks.left;
    assert p2.actions == DoubleClick by {
      assert PerButton(false, false, false, false) == [];
    }
    TrackAppend(false, p1.actions + p2.actions, r.actions, Left);
    TrackAppend(false, p1.actions, p2.actions, Left);
    PressBalanced(cfg, NoMarks, held, Left);
    assert Track(false, p2.actions, Left) == Some(false) by {
      assert p2.actions[1..][1..][1..][1..] == [];
    }
    TrackAppend(false, Emit(true, Up(Left)), PerButton(false, r.marks.right != p2.marks.right, r.marks.middle != p2.marks.middle, true), Left);
  }
}

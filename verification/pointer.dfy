/** The pointer device as the controller drives it (enigo): its three
    buttons and the calls issued on it, recorded in order. */
module Pointer {

  datatype MouseButton = Left | Right | Middle

  /** A call on the pointer device: `mouse_down`, `mouse_up`,
      `mouse_move_relative` and `mouse_scroll_y`. */
  datatype Action =
    | Down(button: MouseButton)
    | Up(button: MouseButton)
    | Move(dx: int, dy: int)
    | Scroll(amount: int)

  predicate IsButtonAction(a: Action) {
    a.Down? || a.Up?
  }
}

/** What the control loop sees of the gilrs device: the pad's identity,
    its axis readings and held buttons at one instant, and the event
    queue. Hardware access itself is abstracted into these values. */
module Device {
  import opened Buttons

  type PadId = nat

  /** An axis reading; gilrs reports stick axes in [-1, 1]. */
  type AxisValue = r: real | -1.0 <= r <= 1.0 witness 0.0

  /** A snapshot of `gilrs::Gamepad`: the four stick axes and the set of
      buttons `is_pressed` reports as held. */
  datatype Pad = Pad(
    leftStickX: AxisValue,
    leftStickY: AxisValue,
    rightStickX: AxisValue,
    rightStickY: AxisValue,
    pressed: set<Button>)

  /** The event kinds the loop distinguishes; every other gilrs event
      (axis changes, connection, repeats, ...) is `Other`. */
  datatype EventKind =
    | ButtonPressed(button: Button)
    | ButtonReleased(button: Button)
    | Disconnected
    | Other

  datatype Event = Event(id: PadId, kind: EventKind)
}

/** The `Config` record of config.rs and its `Default`. */
module Configuration {
  import opened Common
  import opened Buttons

  /** Every field of `Config`; floats are reals. The three start-up flags
      are carried along but read by nothing in the control loop. */
  datatype Config = Config(
    mouseSensitivity: real,
    deadZone: real,
    scrollSensitivity: real,
    mouseAcceleration: real,
    leftClickButton: string,
    rightClickButton: string,
    middleClickButton: string,
    doubleClickButton: string,
    invertXAxis: bool,
    invertYAxis: bool,
    useLeftStickForMouse: bool,
    precisionModeButton: string,
    turboModeButton: string,
    startMinimized: bool,
    startWithSystem: bool,
    showNotification: bool)

  /** `Config::default()`. Its button fields are canonical button names,
      so each of them can fire. */
  function Default(): (c: Config)
    ensures c.leftClickButton == ButtonToString(South)
    ensures c.rightClickButton == ButtonToString(East)
    ensures c.middleClickButton == ButtonToString(West)
    ensures c.doubleClickButton == ButtonToString(North)
    ensures c.precisionModeButton == ButtonToString(LeftTrigger2)
    ensures c.turboModeButton == ButtonToString(RightTrigger2)
    ensures c.useLeftStickForMouse && !c.invertXAxis && !c.invertYAxis
  {
    Config(
      mouseSensitivity := 60.0,
      deadZone := 0.03,
      scrollSensitivity := 3.0,
      mouseAcceleration := 1.4,
      leftClickButton := "South",
      rightClickButton := "East",
      middleClickButton := "West",
      doubleClickButton := "North",
      invertXAxis := false,
      invertYAxis := false,
      useLeftStickForMouse := true,
      precisionModeButton := "LeftTrigger2",
      turboModeButton := "RightTrigger2",
      startMinimized := false,
      startWithSystem := false,
      showNotification := true)
  }

  /** The four default click mappings name four different buttons, so one
      press fires at most one of them. */
  lemma DefaultClickButtonsDistinct()
    ensures var c := Default();
      var names := [c.leftClickButton, c.rightClickButton, c.middleClickButton, c.doubleClickButton];
      forall i, j :: 0 <= i < j < |names| ==> names[i] != names[j]
  {
  }

  /** The default mode buttons differ from each other and from every
      default click mapping, and both are recognised by `button_matches`. */
  lemma DefaultModeButtonsDistinct()
    ensures var c := Default();
      && c.precisionModeButton != c.turboModeButton
      && c.precisionModeButton !in {c.leftClickButton, c.rightClickButton, c.middleClickButton, c.doubleClickButton}
      && c.turboModeButton !in {c.leftClickButton, c.rightClickButton, c.middleClickButton, c.doubleClickButton}
      && ParseButton(c.precisionModeButton) == Some(LeftTrigger2)
      && ParseButton(c.turboModeButton) == Some(RightTrigger2)
  {
  }
}

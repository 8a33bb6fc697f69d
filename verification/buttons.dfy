/** The gilrs button variants and the two name tables the controller uses:
    `button_to_string` (variant to canonical name) and `button_matches`
    (configured name to "is that button held on the pad"). */
module Buttons {
  import opened Common

  /** The twenty variants of `gilrs::Button`. */
  datatype Button =
    | South | East | North | West | C | Z
    | LeftTrigger | LeftTrigger2 | RightTrigger | RightTrigger2
    | Select | Start | Mode | LeftThumb | RightThumb
    | DPadUp | DPadDown | DPadLeft | DPadRight
    | Unknown

  /** Canonical name of a button, compared against configured mappings.
      The name table of `button_matches` sends it back to the button,
      except for Unknown, whose name the table does not recognise. */
  function ButtonToString(b: Button): (r: string)
    ensures ParseButton(r) == (if b == Unknown then None else Some(b))
  {
    match b
    case South => "South"
    case East => "East"
    case North => "North"
    case West => "West"
    case C => "C"
    case Z => "Z"
    case LeftTrigger => "LeftTrigger"
    case LeftTrigger2 => "LeftTrigger2"
    case RightTrigger => "RightTrigger"
    case RightTrigger2 => "RightTrigger2"
    case Select => "Select"
    case Start => "Start"
    case Mode => "Mode"
    case LeftThumb => "LeftThumb"
    case RightThumb => "RightThumb"
    case DPadUp => "DPadUp"
    case DPadDown => "DPadDown"
    case DPadLeft => "DPadLeft"
    case DPadRight => "DPadRight"
    case Unknown => "Unknown"
  }

  /** The name table of `button_matches`: nineteen names are recognised;
      "Unknown" and every other string are not. */
  function ParseButton(name: string): Option<Button>
  {
    match name
    case "South" => Some(South)
    case "East" => Some(East)
    case "North" => Some(North)
    case "West" => Some(West)
    case "C" => Some(C)
    case "Z" => Some(Z)
    case "LeftTrigger" => Some(LeftTrigger)
    case "LeftTrigger2" => Some(LeftTrigger2)
    case "RightTrigger" => Some(RightTrigger)
    case "RightTrigger2" => Some(RightTrigger2)
    case "Select" => Some(Select)
    case "Start" => Some(Start)
    case "Mode" => Some(Mode)
    case "LeftThumb" => Some(LeftThumb)
    case "RightThumb" => Some(RightThumb)
    case "DPadUp" => Some(DPadUp)
    case "DPadDown" => Some(DPadDown)
    case "DPadLeft" => Some(DPadLeft)
    case "DPadRight" => Some(DPadRight)
    case _ => None
  }

  /** `button_matches`: is the button the configured name denotes held on
      the pad, whose held buttons are `pressed`? A name matches exactly
      when it is the canonical name of a held button other than Unknown;
      any other name gives false. */
  function ButtonMatches(pressed: set<Button>, name: string): (r: bool)
    ensures r <==> exists b :: b in pressed && b != Unknown && ButtonToString(b) == name
  {
    match ParseButton(name)
    case Some(b) => ParsedNameIsCanonical(name, b); b in pressed
    case None => false
  }

  /** Every name the parser recognises is the canonical name of what it
      parses to. */
  lemma ParsedNameIsCanonical(name: string, b: Button)
    requires ParseButton(name) == Some(b)
    ensures ButtonToString(b) == name
    ensures b != Unknown
  {
  }

  /** `button_to_string` is injective over all twenty variants. */
  lemma ButtonToStringInjective(a: Button, b: Button)
    requires ButtonToString(a) == ButtonToString(b)
    ensures a == b
  {
    if a == Unknown || b == Unknown {
      if a != b {
        // one side parses to a button, so its name is not "Unknown"
        var k := if a == Unknown then b else a;
        ParsedNameIsCanonical(ButtonToString(k), k);
      }
    }
  }

  /** Asking whether a button's own name matches tells whether that button
      is held, for every variant except Unknown. */
  lemma ButtonMatchesOwnName(pressed: set<Button>, b: Button)
    requires b != Unknown
    ensures ButtonMatches(pressed, ButtonToString(b)) == (b in pressed)
  {
  }

  /** "Unknown" never matches, whatever is held. */
  lemma ButtonMatchesUnknown(pressed: set<Button>)
    ensures !ButtonMatches(pressed, ButtonToString(Unknown))
  {
  }
}

/// The remote control's button table: 21 fixed 32-bit codes, each with
/// the name that the sketch shows on the overlay.
module Remote {
  import opened IRremote
  import opened Wrappers

  datatype Button =
    | VolDown | Play | VolUp
    | Setup | Up | Stop
    | Left | Enter | Right
    | Digit0 | Down | Back
    | Digit1 | Digit2 | Digit3
    | Digit4 | Digit5 | Digit6
    | Digit7 | Digit8 | Digit9

  /** The raw code each button sends. */
  function CodeOf(b: Button): (r: IRRawDataType)
    ensures r % 0x1_0000 == 0xBF00
  {
    match b
    case VolDown => 0xFF00BF00
    case Play => 0xFE01BF00
    case VolUp => 0xFD02BF00
    case Setup => 0xFB04BF00
    case Up => 0xFA05BF00
    case Stop => 0xF906BF00
    case Left => 0xF708BF00
    case Enter => 0xF609BF00
    case Right => 0xF50ABF00
    case Digit0 => 0xF30CBF00
    case Down => 0xF20DBF00
    case Back => 0xF10EBF00
    case Digit1 => 0xEF10BF00
    case Digit2 => 0xEE11BF00
    case Digit3 => 0xED12BF00
    case Digit4 => 0xEB14BF00
    case Digit5 => 0xEA15BF00
    case Digit6 => 0xE916BF00
    case Digit7 => 0xE718BF00
    case Digit8 => 0xE619BF00
    case Digit9 => 0xE51ABF00
  }

  /** The name written into the caller's buffer for each button; never
      empty, so the overlay write that follows it always happens. */
  function Name(b: Button): (r: string)
    ensures |r| > 0
  {
    match b
    case VolDown => "VOL_DOWN"
    case Play => "PLAY"
    case VolUp => "VOL_UP"
    case Setup => "SETUP"
    case Up => "UP"
    case Stop => "STOP"
    case Left => "LEFT"
    case Enter => "ENTER"
    case Right => "RIGHT"
    case Digit0 => "0"
    case Down => "DOWN"
    case Back => "BACK"
    case Digit1 => "1"
    case Digit2 => "2"
    case Digit3 => "3"
    case Digit4 => "4"
    case Digit5 => "5"
    case Digit6 => "6"
    case Digit7 => "7"
    case Digit8 => "8"
    case Digit9 => "9"
  }

  /** The codes of the table, written out once more as a plain set. */
  const KnownCodes: set<IRRawDataType> := {
    0xFF00BF00, 0xFE01BF00, 0xFD02BF00, 0xFB04BF00, 0xFA05BF00, 0xF906BF00,
    0xF708BF00, 0xF609BF00, 0xF50ABF00, 0xF30CBF00, 0xF20DBF00, 0xF10EBF00,
    0xEF10BF00, 0xEE11BF00, 0xED12BF00, 0xEB14BF00, 0xEA15BF00, 0xE916BF00,
    0xE718BF00, 0xE619BF00, 0xE51ABF00
  }

  const UnknownName: string := "Unknown Button!"

  /** The switch of `validatePressAndGetName`: which button a code is, if any. */
  function ButtonOf(code: IRRawDataType): (r: Option<Button>)
    ensures r.Some? <==> code in KnownCodes
    ensures r.Some? ==> CodeOf(r.value) == code
  {
    if code == 0xFF00BF00 then Some(VolDown)
    else if code == 0xFE01BF00 then Some(Play)
    else if code == 0xFD02BF00 then Some(VolUp)
    else if code == 0xFB04BF00 then Some(Setup)
    else if code == 0xFA05BF00 then Some(Up)
    else if code == 0xF906BF00 then Some(Stop)
    else if code == 0xF708BF00 then Some(Left)
    else if code == 0xF609BF00 then Some(Enter)
    else if code == 0xF50ABF00 then Some(Right)
    else if code == 0xF30CBF00 then Some(Digit0)
    else if code == 0xF20DBF00 then Some(Down)
    else if code == 0xF10EBF00 then Some(Back)
    else if code == 0xEF10BF00 then Some(Digit1)
    else if code == 0xEE11BF00 then Some(Digit2)
    else if code == 0xED12BF00 then Some(Digit3)
    else if code == 0xEB14BF00 then Some(Digit4)
    else if code == 0xEA15BF00 then Some(Digit5)
    else if code == 0xE916BF00 then Some(Digit6)
    else if code == 0xE718BF00 then Some(Digit7)
    else if code == 0xE619BF00 then Some(Digit8)
    else if code == 0xE51ABF00 then Some(Digit9)
    else None
  }

  /** Every button's code decodes back to that button, so no two buttons
      share a code. */
  lemma ButtonOfCodeOf(b: Button)
    ensures ButtonOf(CodeOf(b)) == Some(b)
  {
    match b
    case VolDown =>
    case Play =>
    case VolUp =>
    case Setup =>
    case Up =>
    case Stop =>
    case Left =>
    case Enter =>
    case Right =>
    case Digit0 =>
    case Down =>
    case Back =>
    case Digit1 =>
    case Digit2 =>
    case Digit3 =>
    case Digit4 =>
    case Digit5 =>
    case Digit6 =>
    case Digit7 =>
    case Digit8 =>
    case Digit9 =>
  }

  /** `validatePressAndGetName(button, buf)`: appends the button's name and
      returns true for the 21 known codes; appends "Unknown Button!" and
      returns false for every other code. */
  function ValidatePressAndGetName(code: IRRawDataType, buf: string): (r: (bool, string))
    ensures r.0 <==> code in KnownCodes
    ensures r.0 ==> exists b :: CodeOf(b) == code && r.1 == buf + Name(b)
    ensures !r.0 ==> r.1 == buf + UnknownName
  {
    match ButtonOf(code)
    case Some(b) => (true, buf + Name(b))
    case None => (false, buf + UnknownName)
  }

}

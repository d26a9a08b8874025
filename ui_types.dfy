/** Types shared by the Rust user interface and the iOS shell: colours, inputs, renderer requests. */
module UiTypes {
  import opened Wrappers
  import opened Ints

  /** The sixteen-colour palette minus code 2, which the game never uses. */
  datatype Color =
    | Black | Red | Yellow | Blue | Magenta | Cyan | White | Gray
    | RedBright | Green | YellowBright | BlueBright | MagentaBright | CyanBright | WhiteBright

  /** The `#[repr(C)]` discriminant of a colour. */
  function Code(c: Color): u8
  {
    match c
    case Black => 0
    case Red => 1
    case Yellow => 3
    case Blue => 4
    case Magenta => 5
    case Cyan => 6
    case White => 7
    case Gray => 8
    case RedBright => 9
    case Green => 10
    case YellowBright => 11
    case BlueBright => 12
    case MagentaBright => 13
    case CyanBright => 14
    case WhiteBright => 15
  }

  /** `Color::try_from`: the colour with this code, or an error for 2 and for codes above 15. */
  function ColorFromCode(v: u8): (r: Result<Color, ()>)
    ensures r.Ok? <==> v <= 15 && v != 2
    ensures r.Ok? ==> Code(r.value) == v
  {
    match v
    case 0 => Ok(Black)
    case 1 => Ok(Red)
    case 3 => Ok(Yellow)
    case 4 => Ok(Blue)
    case 5 => Ok(Magenta)
    case 6 => Ok(Cyan)
    case 7 => Ok(White)
    case 8 => Ok(Gray)
    case 9 => Ok(RedBright)
    case 10 => Ok(Green)
    case 11 => Ok(YellowBright)
    case 12 => Ok(BlueBright)
    case 13 => Ok(MagentaBright)
    case 14 => Ok(CyanBright)
    case 15 => Ok(WhiteBright)
    case _ => Err(())
  }

  /** Every colour survives the trip through its code, so distinct colours have distinct codes. */
  lemma ColorCodeRoundTrip(c: Color)
    ensures ColorFromCode(Code(c)) == Ok(c)
  {
  }

  /** `Color::default()`. */
  function DefaultColor(): (c: Color)
    ensures Code(c) == 7
  {
    White
  }

  /** A key press as the platform shells report it. */
  datatype Input = KeyUp | KeyDown | Enter | Other

  /** What the user interface waits for: any key, or a choice in a dialog drawn at `start`. */
  datatype WaitingState =
    | PressAnyKey
    | Dialog(currentChoice: u8, start: (u8, u8))

  /** `Milliseconds(pub i32)`. */
  type Milliseconds = x: int | -0x8000_0000 <= x < 0x8000_0000

  /** What the Rust renderer asks the platform shell to do, in order. */
  datatype Request =
    | ClearScreen
    | Flush
    | WriteStr(s: string)
    | MoveCursor(line: u8, column: u8)
    | SetColor(foreground: Color, background: Color)
    | Sleep(ms: Milliseconds)
}

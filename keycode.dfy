/** The `Keycode` enum of app.swift: the virtual key codes of macOS, each
    with its fixed raw value. The cases are grouped by the blocks they are
    declared in; a keycode is a block and a case of that block. */
module Keycodes {
  import opened Seqs

  /** The layout-independent editing, modifier, arrow and media keys (app.swift:7-33). */
  datatype SpecialKey =
    | ReturnKey | Enter | Tab | Space | Delete | Escape | Command | Shift
    | CapsLock | Option | Control | RightShift | RightOption | RightControl | LeftArrow | RightArrow
    | DownArrow | UpArrow | VolumeUp | VolumeDown | Mute | Help | Home | PageUp
    | ForwardDelete | End | PageDown

  /** The function key and F1 to F20 (app.swift:34-54). */
  datatype FunctionKey =
    | Function | F1 | F2 | F4 | F5 | F6 | F7 | F3
    | F8 | F9 | F10 | F11 | F12 | F13 | F14 | F15
    | F16 | F17 | F18 | F19 | F20

  /** The letters (app.swift:59-84). */
  datatype LetterKey =
    | A | B | C | D | E | F | G | H
    | I | J | K | L | M | N | O | P
    | Q | R | S | T | U | V | W | X
    | Y | Z

  /** The digits (app.swift:86-95). */
  datatype DigitKey =
    | Zero | One | Two | Three | Four | Five | Six | Seven
    | Eight | Nine

  /** The punctuation keys (app.swift:97-107). */
  datatype SymbolKey =
    | Equals | Minus | Semicolon | Apostrophe | Comma | Period | ForwardSlash | Backslash
    | Grave | LeftBracket | RightBracket

  /** The keypad keys (app.swift:109-125). */
  datatype KeypadKey =
    | KeypadDecimal | KeypadMultiply | KeypadPlus | KeypadClear | KeypadDivide | KeypadMinus | KeypadEquals | Keypad0
    | Keypad1 | Keypad2 | Keypad3 | Keypad4 | Keypad5 | Keypad6 | Keypad7 | Keypad8
    | Keypad9

  datatype Keycode =
    | Special(special: SpecialKey)
    | FunctionRow(functionKey: FunctionKey)
    | Letter(letter: LetterKey)
    | Digit(digit: DigitKey)
    | Symbol(symbol: SymbolKey)
    | Keypad(keypad: KeypadKey)

  function SpecialRaw(k: SpecialKey): nat
  {
    match k
    case ReturnKey => 0x24
    case Enter => 0x4C
    case Tab => 0x30
    case Space => 0x31
    case Delete => 0x33
    case Escape => 0x35
    case Command => 0x37
    case Shift => 0x38
    case CapsLock => 0x39
    case Option => 0x3A
    case Control => 0x3B
    case RightShift => 0x3C
    case RightOption => 0x3D
    case RightControl => 0x3E
    case LeftArrow => 0x7B
    case RightArrow => 0x7C
    case DownArrow => 0x7D
    case UpArrow => 0x7E
    case VolumeUp => 0x48
    case VolumeDown => 0x49
    case Mute => 0x4A
    case Help => 0x72
    case Home => 0x73
    case PageUp => 0x74
    case ForwardDelete => 0x75
    case End => 0x77
    case PageDown => 0x79
  }

  function FunctionRowRaw(k: FunctionKey): nat
  {
    match k
    case Function => 0x3F
    case F1 => 0x7A
    case F2 => 0x78
    case F4 => 0x76
    case F5 => 0x60
    case F6 => 0x61
    case F7 => 0x62
    case F3 => 0x63
    case F8 => 0x64
    case F9 => 0x65
    case F10 => 0x6D
    case F11 => 0x67
    case F12 => 0x6F
    case F13 => 0x69
    case F14 => 0x6B
    case F15 => 0x71
    case F16 => 0x6A
    case F17 => 0x40
    case F18 => 0x4F
    case F19 => 0x50
    case F20 => 0x5A
  }

  function LetterRaw(k: LetterKey): nat
  {
    match k
    case A => 0x00
    case B => 0x0B
    case C => 0x08
    case D => 0x02
    case E => 0x0E
    case F => 0x03
    case G => 0x05
    case H => 0x04
    case I => 0x22
    case J => 0x26
    case K => 0x28
    case L => 0x25
    case M => 0x2E
    case N => 0x2D
    case O => 0x1F
    case P => 0x23
    case Q => 0x0C
    case R => 0x0F
    case S => 0x01
    case T => 0x11
    case U => 0x20
    case V => 0x09
    case W => 0x0D
    case X => 0x07
    case Y => 0x10
    case Z => 0x06
  }

  function DigitRaw(k: DigitKey): nat
  {
    match k
    case Zero => 0x1D
    case One => 0x12
    case Two => 0x13
    case Three => 0x14
    case Four => 0x15
    case Five => 0x17
    case Six => 0x16
    case Seven => 0x1A
    case Eight => 0x1C
    case Nine => 0x19
  }

  function SymbolRaw(k: SymbolKey): nat
  {
    match k
    case Equals => 0x18
    case Minus => 0x1B
    case Semicolon => 0x29
    case Apostrophe => 0x27
    case Comma => 0x2B
    case Period => 0x2F
    case ForwardSlash => 0x2C
    case Backslash => 0x2A
    case Grave => 0x32
    case LeftBracket => 0x21
    case RightBracket => 0x1E
  }

  function KeypadRaw(k: KeypadKey): nat
  {
    match k
    case KeypadDecimal => 0x41
    case KeypadMultiply => 0x43
    case KeypadPlus => 0x45
    case KeypadClear => 0x47
    case KeypadDivide => 0x4B
    case KeypadMinus => 0x4E
    case KeypadEquals => 0x51
    case Keypad0 => 0x52
    case Keypad1 => 0x53
    case Keypad2 => 0x54
    case Keypad3 => 0x55
    case Keypad4 => 0x56
    case Keypad5 => 0x57
    case Keypad6 => 0x58
    case Keypad7 => 0x59
    case Keypad8 => 0x5B
    case Keypad9 => 0x5C
  }

  /** The raw value of each case. Every one is below 0x80. */
  function Raw(k: Keycode): (r: nat)
    ensures r < 0x80
  {
    match k
    case Special(c) => SpecialRaw(c)
    case FunctionRow(c) => FunctionRowRaw(c)
    case Letter(c) => LetterRaw(c)
    case Digit(c) => DigitRaw(c)
    case Symbol(c) => SymbolRaw(c)
    case Keypad(c) => KeypadRaw(c)
  }

  /** `Keycode(rawValue:)`: the case with the given raw value, if any,
      looked up in the quarter of the range the value falls in. */
  function FromRaw(code: int): Option<Keycode>
  {
    if 0x00 <= code < 0x20 then FromRawQuarter0(code)
    else if 0x20 <= code < 0x40 then FromRawQuarter1(code)
    else if 0x40 <= code < 0x60 then FromRawQuarter2(code)
    else if 0x60 <= code < 0x80 then FromRawQuarter3(code)
    else None
  }

  function FromRawQuarter0(code: int): Option<Keycode>
  {
    match code
    case 0x00 => Some(Letter(A))
    case 0x01 => Some(Letter(S))
    case 0x02 => Some(Letter(D))
    case 0x03 => Some(Letter(F))
    case 0x04 => Some(Letter(H))
    case 0x05 => Some(Letter(G))
    case 0x06 => Some(Letter(Z))
    case 0x07 => Some(Letter(X))
    case 0x08 => Some(Letter(C))
    case 0x09 => Some(Letter(V))
    case 0x0B => Some(Letter(B))
    case 0x0C => Some(Letter(Q))
    case 0x0D => Some(Letter(W))
    case 0x0E => Some(Letter(E))
    case 0x0F => Some(Letter(R))
    case 0x10 => Some(Letter(Y))
    case 0x11 => Some(Letter(T))
    case 0x12 => Some(Digit(One))
    case 0x13 => Some(Digit(Two))
    case 0x14 => Some(Digit(Three))
    case 0x15 => Some(Digit(Four))
    case 0x16 => Some(Digit(Six))
    case 0x17 => Some(Digit(Five))
    case 0x18 => Some(Symbol(Equals))
    case 0x19 => Some(Digit(Nine))
    case 0x1A => Some(Digit(Seven))
    case 0x1B => Some(Symbol(Minus))
    case 0x1C => Some(Digit(Eight))
    case 0x1D => Some(Digit(Zero))
    case 0x1E => Some(Symbol(RightBracket))
    case 0x1F => Some(Letter(O))
    case _ => None
  }

  function FromRawQuarter1(code: int): Option<Keycode>
  {
    match code
    case 0x20 => Some(Letter(U))
    case 0x21 => Some(Symbol(LeftBracket))
    case 0x22 => Some(Letter(I))
    case 0x23 => Some(Letter(P))
    case 0x24 => Some(Special(ReturnKey))
    case 0x25 => Some(Letter(L))
    case 0x26 => Some(Letter(J))
    case 0x27 => Some(Symbol(Apostrophe))
    case 0x28 => Some(Letter(K))
    case 0x29 => Some(Symbol(Semicolon))
    case 0x2A => Some(Symbol(Backslash))
    case 0x2B => Some(Symbol(Comma))
    case 0x2C => Some(Symbol(ForwardSlash))
    case 0x2D => Some(Letter(N))
    case 0x2E => Some(Letter(M))
    case 0x2F => Some(Symbol(Period))
    case 0x30 => Some(Special(Tab))
    case 0x31 => Some(Special(Space))
    case 0x32 => Some(Symbol(Grave))
    case 0x33 => Some(Special(Delete))
    case 0x35 => Some(Special(Escape))
    case 0x37 => Some(Special(Command))
    case 0x38 => Some(Special(Shift))
    case 0x39 => Some(Special(CapsLock))
    case 0x3A => Some(Special(Option))
    case 0x3B => Some(Special(Control))
    case 0x3C => Some(Special(RightShift))
    case 0x3D => Some(Special(RightOption))
    case 0x3E => Some(Special(RightControl))
    case 0x3F => Some(FunctionRow(Function))
    case _ => None
  }

  function FromRawQuarter2(code: int): Option<Keycode>
  {
    match code
    case 0x40 => Some(FunctionRow(F17))
    case 0x41 => Some(Keypad(KeypadDecimal))
    case 0x43 => Some(Keypad(KeypadMultiply))
    case 0x45 => Some(Keypad(KeypadPlus))
    case 0x47 => Some(Keypad(KeypadClear))
    case 0x48 => Some(Special(VolumeUp))
    case 0x49 => Some(Special(VolumeDown))
    case 0x4A => Some(Special(Mute))
    case 0x4B => Some(Keypad(KeypadDivide))
    case 0x4C => Some(Special(Enter))
    case 0x4E => Some(Keypad(KeypadMinus))
    case 0x4F => Some(FunctionRow(F18))
    case 0x50 => Some(FunctionRow(F19))
    case 0x51 => Some(Keypad(KeypadEquals))
    case 0x52 => Some(Keypad(Keypad0))
    case 0x53 => Some(Keypad(Keypad1))
    case 0x54 => Some(Keypad(Keypad2))
    case 0x55 => Some(Keypad(Keypad3))
    case 0x56 => Some(Keypad(Keypad4))
    case 0x57 => Some(Keypad(Keypad5))
    case 0x58 => Some(Keypad(Keypad6))
    case 0x59 => Some(Keypad(Keypad7))
    case 0x5A => Some(FunctionRow(F20))
    case 0x5B => Some(Keypad(Keypad8))
    case 0x5C => Some(Keypad(Keypad9))
    case _ => None
  }

  function FromRawQuarter3(code: int): Option<Keycode>
  {
    match code
    case 0x60 => Some(FunctionRow(F5))
    case 0x61 => Some(FunctionRow(F6))
    case 0x62 => Some(FunctionRow(F7))
    case 0x63 => Some(FunctionRow(F3))
    case 0x64 => Some(FunctionRow(F8))
    case 0x65 => Some(FunctionRow(F9))
    case 0x67 => Some(FunctionRow(F11))
    case 0x69 => Some(FunctionRow(F13))
    case 0x6A => Some(FunctionRow(F16))
    case 0x6B => Some(FunctionRow(F14))
    case 0x6D => Some(FunctionRow(F10))
    case 0x6F => Some(FunctionRow(F12))
    case 0x71 => Some(FunctionRow(F15))
    case 0x72 => Some(Special(Help))
    case 0x73 => Some(Special(Home))
    case 0x74 => Some(Special(PageUp))
    case 0x75 => Some(Special(ForwardDelete))
    case 0x76 => Some(FunctionRow(F4))
    case 0x77 => Some(Special(End))
    case 0x78 => Some(FunctionRow(F2))
    case 0x79 => Some(Special(PageDown))
    case 0x7A => Some(FunctionRow(F1))
    case 0x7B => Some(Special(LeftArrow))
    case 0x7C => Some(Special(RightArrow))
    case 0x7D => Some(Special(DownArrow))
    case 0x7E => Some(Special(UpArrow))
    case _ => None
  }

  lemma FromRawInvertsSpecialRaw(c: SpecialKey)
    ensures FromRaw(SpecialRaw(c)) == Some(Special(c))
  {
  }

  lemma FromRawInvertsFunctionRowRaw(c: FunctionKey)
    ensures FromRaw(FunctionRowRaw(c)) == Some(FunctionRow(c))
  {
  }

  lemma FromRawInvertsLetterRaw(c: LetterKey)
    ensures FromRaw(LetterRaw(c)) == Some(Letter(c))
  {
  }

  lemma FromRawInvertsDigitRaw(c: DigitKey)
    ensures FromRaw(DigitRaw(c)) == Some(Digit(c))
  {
  }

  lemma FromRawInvertsSymbolRaw(c: SymbolKey)
    ensures FromRaw(SymbolRaw(c)) == Some(Symbol(c))
  {
  }

  lemma FromRawInvertsKeypadRaw(c: KeypadKey)
    ensures FromRaw(KeypadRaw(c)) == Some(Keypad(c))
  {
  }

  /** Every case is recovered from its raw value. */
  lemma FromRawInvertsRaw(k: Keycode)
    ensures FromRaw(Raw(k)) == Some(k)
  {
    match k
    case Special(c) => FromRawInvertsSpecialRaw(c);
    case FunctionRow(c) => FromRawInvertsFunctionRowRaw(c);
    case Letter(c) => FromRawInvertsLetterRaw(c);
    case Digit(c) => FromRawInvertsDigitRaw(c);
    case Symbol(c) => FromRawInvertsSymbolRaw(c);
    case Keypad(c) => FromRawInvertsKeypadRaw(c);
  }

  lemma RawInvertsFromRawQuarter0(code: int)
    requires FromRawQuarter0(code).Some?
    ensures Raw(FromRawQuarter0(code).value) == code
  {
  }

  lemma RawInvertsFromRawQuarter1(code: int)
    requires FromRawQuarter1(code).Some?
    ensures Raw(FromRawQuarter1(code).value) == code
  {
  }

  lemma RawInvertsFromRawQuarter2(code: int)
    requires FromRawQuarter2(code).Some?
    ensures Raw(FromRawQuarter2(code).value) == code
  {
  }

  lemma RawInvertsFromRawQuarter3(code: int)
    requires FromRawQuarter3(code).Some?
    ensures Raw(FromRawQuarter3(code).value) == code
  {
  }

  /** A keycode found by its raw value has that raw value. */
  lemma RawInvertsFromRaw(code: int)
    requires FromRaw(code).Some?
    ensures Raw(FromRaw(code).value) == code
  {
    if code < 0x20 { RawInvertsFromRawQuarter0(code); }
    else if code < 0x40 { RawInvertsFromRawQuarter1(code); }
    else if code < 0x60 { RawInvertsFromRawQuarter2(code); }
    else { RawInvertsFromRawQuarter3(code); }
  }

  /** No two cases share a raw value. */
  lemma RawInjective(a: Keycode, b: Keycode)
    ensures Raw(a) == Raw(b) <==> a == b
  {
    FromRawInvertsRaw(a);
    FromRawInvertsRaw(b);
  }
}

/** The `KeyEquivalent` enum of keyequivalent.swift: the private-use code
    points AppKit gives the function keys of a keyboard, from 0xF700 (up
    arrow) to 0xF747 (mode switch), and the one-character string a menu item
    takes as its key equivalent. The cases are grouped as they are declared:
    the arrows, f1 to f35, the editing keys, the system keys and the command
    keys. */
module KeyEquivalents {

  datatype ArrowKey = UpArrow | DownArrow | LeftArrow | RightArrow

  /** The number of a function key f1 ... f35. */
  type FNumber = n: int | 1 <= n <= 35 witness 1

  datatype EditingKey = Insert | Delete | Home | Begin | End | PageUp | PageDown

  datatype SystemKey =
    | PrintScreen | ScrollLock | Pause | SysReq | Break | Reset | Stop | Menu | User | System

  datatype CommandKey =
    | Print | ClearLine | ClearDisplay | InsertLine | DeleteLine | InsertChar | DeleteChar
    | Prev | Next | Select | Execute | Undo | Redo | Find | Help | ModeSwitch

  datatype KeyEquivalent =
    | Arrow(arrow: ArrowKey)
    | F(number: FNumber)
    | Editing(editing: EditingKey)
    | SystemGroup(system: SystemKey)
    | Command(command: CommandKey)

  /** The raw value of each case, as declared. */
  function Raw(e: KeyEquivalent): (r: int)
    ensures 0xF700 <= r <= 0xF747
  {
    match e
    case Arrow(a) =>
      (match a
        case UpArrow => 0xF700 case DownArrow => 0xF701
        case LeftArrow => 0xF702 case RightArrow => 0xF703)
    case F(n) => 0xF703 + n
    case Editing(k) =>
      (match k
        case Insert => 0xF727 case Delete => 0xF728 case Home => 0xF729 case Begin => 0xF72A
        case End => 0xF72B case PageUp => 0xF72C case PageDown => 0xF72D)
    case SystemGroup(k) =>
      (match k
        case PrintScreen => 0xF72E case ScrollLock => 0xF72F case Pause => 0xF730
        case SysReq => 0xF731 case Break => 0xF732 case Reset => 0xF733 case Stop => 0xF734
        case Menu => 0xF735 case User => 0xF736 case System => 0xF737)
    case Command(k) =>
      (match k
        case Print => 0xF738 case ClearLine => 0xF739 case ClearDisplay => 0xF73A
        case InsertLine => 0xF73B case DeleteLine => 0xF73C case InsertChar => 0xF73D
        case DeleteChar => 0xF73E case Prev => 0xF73F case Next => 0xF740 case Select => 0xF741
        case Execute => 0xF742 case Undo => 0xF743 case Redo => 0xF744 case Find => 0xF745
        case Help => 0xF746 case ModeSwitch => 0xF747)
  }

  /** The cases in declaration order. */
  const ArrowCases: seq<KeyEquivalent> :=
    [Arrow(UpArrow), Arrow(DownArrow), Arrow(LeftArrow), Arrow(RightArrow)]

  const FCases: seq<KeyEquivalent> := seq(35, (i: int) requires 0 <= i < 35 => F(i + 1))

  const EditingCases: seq<KeyEquivalent> :=
    [Editing(Insert), Editing(Delete), Editing(Home), Editing(Begin), Editing(End),
     Editing(PageUp), Editing(PageDown)]

  const SystemCases: seq<KeyEquivalent> :=
    [SystemGroup(PrintScreen), SystemGroup(ScrollLock), SystemGroup(Pause), SystemGroup(SysReq),
     SystemGroup(Break), SystemGroup(Reset), SystemGroup(Stop), SystemGroup(Menu),
     SystemGroup(User), SystemGroup(System)]

  const CommandCases: seq<KeyEquivalent> :=
    [Command(Print), Command(ClearLine), Command(ClearDisplay), Command(InsertLine),
     Command(DeleteLine), Command(InsertChar), Command(DeleteChar), Command(Prev),
     Command(Next), Command(Select), Command(Execute), Command(Undo), Command(Redo),
     Command(Find), Command(Help), Command(ModeSwitch)]

  const AllCases: seq<KeyEquivalent> :=
    ArrowCases + FCases + EditingCases + SystemCases + CommandCases

  /** Within each group the raw values count up by one from the group's
      first value. */
  lemma ArrowsConsecutive()
    ensures forall i :: 0 <= i < |ArrowCases| ==> Raw(ArrowCases[i]) == 0xF700 + i
  {
  }

  lemma FKeysConsecutive()
    ensures |FCases| == 35
    ensures forall i :: 0 <= i < |FCases| ==> Raw(FCases[i]) == 0xF704 + i
  {
  }

  lemma EditingConsecutive()
    ensures forall i :: 0 <= i < |EditingCases| ==> Raw(EditingCases[i]) == 0xF727 + i
  {
  }

  lemma SystemConsecutive()
    ensures forall i :: 0 <= i < |SystemCases| ==> Raw(SystemCases[i]) == 0xF72E + i
  {
  }

  lemma CommandsConsecutive()
    ensures forall i :: 0 <= i < |CommandCases| ==> Raw(CommandCases[i]) == 0xF738 + i
  {
    assert forall i :: 0 <= i < 8 ==> Raw(CommandCases[i]) == 0xF738 + i;
  }

  /** The 72 raw values run consecutively from 0xF700 to 0xF747 in
      declaration order. */
  lemma RawValuesConsecutive()
    ensures |AllCases| == 72
    ensures forall i :: 0 <= i < |AllCases| ==> Raw(AllCases[i]) == 0xF700 + i
  {
    ArrowsConsecutive();
    FKeysConsecutive();
    EditingConsecutive();
    SystemConsecutive();
    CommandsConsecutive();
  }

  /** Every case is listed, at the position its raw value gives. */
  lemma ListedAtItsRawValue(e: KeyEquivalent)
    ensures 0 <= Raw(e) - 0xF700 < |AllCases| && AllCases[Raw(e) - 0xF700] == e
  {
    RawValuesConsecutive();
    match e
    case Arrow(_) =>
      assert ArrowCases[Raw(e) - 0xF700] == e;
    case F(n) =>
      assert FCases[n - 1] == e;
    case Editing(_) =>
      assert EditingCases[Raw(e) - 0xF727] == e;
    case SystemGroup(_) =>
      assert SystemCases[Raw(e) - 0xF72E] == e;
    case Command(_) =>
      assert CommandCases[Raw(e) - 0xF738] == e;
  }

  /** No two cases share a raw value. */
  lemma RawInjective(a: KeyEquivalent, b: KeyEquivalent)
    ensures Raw(a) == Raw(b) <==> a == b
  {
    ListedAtItsRawValue(a);
    ListedAtItsRawValue(b);
  }

  /** A Unicode scalar value (section 3.9, definition D76, of the Unicode
      Standard): a code point outside the surrogate range. */
  predicate ScalarValue(v: int)
  {
    (0 <= v < 0xD800) || (0xE000 <= v <= 0x10FFFF)
  }

  /** Every raw value is a scalar value, so `UnicodeScalar(rawValue)` never
      fails. */
  lemma RawIsScalarValue(e: KeyEquivalent)
    ensures ScalarValue(Raw(e))
  {
  }

  /** `string`: the one character whose scalar value is the raw value. */
  function String(e: KeyEquivalent): (s: string)
    ensures |s| == 1 && s[0] as int == Raw(e)
  {
    RawIsScalarValue(e);
    [Raw(e) as char]
  }

  /** Different cases give different strings. */
  lemma StringInjective(a: KeyEquivalent, b: KeyEquivalent)
    ensures String(a) == String(b) <==> a == b
  {
    RawInjective(a, b);
    if String(a) == String(b) {
      assert String(a)[0] == String(b)[0];
    }
  }
}

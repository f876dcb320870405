/** The chord dispatcher of key.swift: a `Key` is a base keycode and the set
    of keycodes held with it; `put` turns the modifier flags of an event into
    keycodes; `execute` is a switch that compares the chord for equality with
    one row per layout or navigation command. */
module Keys {
  import opened Seqs
  import opened Keycodes
  import opened ModifierFlags
  import opened Geometry

  /** A chord. Its `description` is the printed form of `keys` and is not
      modelled. */
  datatype Key = Key(key: Keycode, keys: set<Keycode>)

  /** The modifier keycodes `put` looks for, in the order it tests them. The
      function key is commented out in the source and never inserted. */
  const PutKeys: set<Keycode> :=
    {Special(Shift), Special(Control), Special(Command), Special(Option), Special(CapsLock)}

  /** The held modifiers of a flag word, one test per modifier in the order
      `put` makes them; each test is the option set's own `contains`. */
  function Held(flags: Flags): set<Keycode>
  {
    (if Includes(flags, ShiftFlag) then {Special(Shift)} else {})
    + (if Includes(flags, ControlFlag) then {Special(Control)} else {})
    + (if Includes(flags, CommandFlag) then {Special(Command)} else {})
    + (if Includes(flags, OptionFlag) then {Special(Option)} else {})
    + (if Includes(flags, CapsLockFlag) then {Special(CapsLock)} else {})
  }

  /** A modifier is held exactly when the word holds its flag. */
  lemma HeldIsFlagged(flags: Flags)
    ensures forall k :: k in Held(flags) <==> k in PutKeys && Includes(flags, FlagOf(k))
  {
  }

  /** Only the five modifiers can be held; a zero word holds none, and the
      function key is never inserted. */
  lemma HeldFacts(flags: Flags)
    ensures Held(flags) <= PutKeys
    ensures flags == 0 ==> Held(flags) == {}
    ensures FunctionRow(Function) !in Held(flags)
  {
  }

  /** The chord `init(_ key:, _ modifiers:)` builds. */
  function Chord(key: Keycode, modifiers: set<Keycode>): Key
  {
    Key(key, modifiers + {key})
  }

  /** `put(_:into:)`: when the flag word is not zero, insert each of shift,
      control, command, option and caps lock whose flag it holds. The result
      is the given set and the held modifiers, nothing else; the zero test only
      skips work, since a zero word holds no flag (`HeldFacts`). */
  method Put(flags: Flags, keys: set<Keycode>) returns (r: set<Keycode>)
    ensures r == keys + Held(flags)
  {
    r := keys;
    if flags != 0 {
      if Includes(flags, ShiftFlag) {
        r := r + {Special(Shift)};
      }
      if Includes(flags, ControlFlag) {
        r := r + {Special(Control)};
      }
      if Includes(flags, CommandFlag) {
        r := r + {Special(Command)};
      }
      if Includes(flags, OptionFlag) {
        r := r + {Special(Option)};
      }
      if Includes(flags, CapsLockFlag) {
        r := r + {Special(CapsLock)};
      }
    }
  }

  /** `init(_ key:, _ modifiers:)`: start from the modifiers and insert the
      base key, which is then always one of the chord's keys. */
  method NewKey(key: Keycode, modifiers: set<Keycode>) returns (k: Key)
    ensures k == Chord(key, modifiers)
    ensures k.key == key && key in k.keys
    ensures forall c :: c in k.keys <==> c == key || c in modifiers
  {
    var keys := modifiers;
    keys := keys + {key};
    k := Key(key, keys);
  }

  /** `init(_ event:)`: the base key is the event's keycode, which must be
      one the enum knows (the source force-unwraps it), and the held
      modifiers are added to it. */
  method KeyFromEvent(code: bv16, flags: Flags) returns (k: Key)
    requires FromRaw(code as int).Some?
    ensures k == Chord(FromRaw(code as int).value, Held(flags))
    ensures Raw(k.key) == code as int
    ensures forall c :: c in k.keys <==> c == k.key || c in Held(flags)
  {
    var key := FromRaw(code as int).value;
    RawInvertsFromRaw(code as int);
    var keys := {key};
    keys := Put(flags, keys);
    k := Key(key, keys);
  }

  /** `==`: the same base key and the same keycode set. */
  predicate Equal(a: Key, b: Key)
  {
    a.key == b.key && a.keys == b.keys
  }

  /** The equality of chords is the identity of their values. */
  lemma EqualIsIdentity(a: Key, b: Key)
    ensures Equal(a, b) <==> a == b
  {
  }

  /** What a branch of `execute` does: fit the current window to a layout,
      move along the windows of the current screen or along the screens,
      toggle full screen, or, in the `default` branch, nothing. */
  datatype Op<L> = Fit(layout: L) | PreviousWindow | NextWindow | PreviousScreen | NextScreen
    | ToggleFullScreen | Ignore

  /** The modifiers every chord of the table carries: option and control. */
  const Modifiers: set<Keycode> := {Special(Option), Special(Control)}

  /** The switch of `execute`, tried top to bottom: the operation of the
      first row whose chord, built from the row's key and the modifiers,
      equals the key, otherwise the default branch. */
  function Lookup<L>(rows: seq<(Keycode, Op<L>)>, modifiers: set<Keycode>, key: Key): Op<L>
  {
    if rows == [] then Ignore
    else if Equal(key, Chord(rows[0].0, modifiers)) then rows[0].1
    else Lookup(rows[1..], modifiers, key)
  }

  predicate DistinctKeys<L>(rows: seq<(Keycode, Op<L>)>)
  {
    forall i, j :: 0 <= i < j < |rows| ==> rows[i].0 != rows[j].0
  }

  predicate NoIgnoreRow<L>(rows: seq<(Keycode, Op<L>)>)
  {
    forall i :: 0 <= i < |rows| ==> !rows[i].1.Ignore?
  }

  /** A chord matches a row exactly when its base key is the row's key and
      its keycodes are the modifiers and that key; with distinct row keys at
      most one row matches. */
  lemma AtMostOneRow<L>(rows: seq<(Keycode, Op<L>)>, modifiers: set<Keycode>, key: Key, i: nat, j: nat)
    requires DistinctKeys(rows)
    requires i < |rows| && j < |rows|
    requires Equal(key, Chord(rows[i].0, modifiers)) && Equal(key, Chord(rows[j].0, modifiers))
    ensures i == j
    ensures key.key == rows[i].0 && key.keys == modifiers + {rows[i].0}
  {
  }

  /** With distinct row keys, the switch picks a row's operation exactly when
      the chord is that row's chord. */
  lemma {:induction false} LookupFindsRow<L>(rows: seq<(Keycode, Op<L>)>, modifiers: set<Keycode>, key: Key, i: nat)
    requires DistinctKeys(rows)
    requires i < |rows| && key == Chord(rows[i].0, modifiers)
    ensures Lookup(rows, modifiers, key) == rows[i].1
  {
    if i > 0 {
      assert rows[0].0 != rows[i].0;
      LookupFindsRow(rows[1..], modifiers, key, i - 1);
    }
  }

  /** When no row's chord is the key, the switch falls to its default. */
  lemma {:induction false} LookupMissesRows<L>(rows: seq<(Keycode, Op<L>)>, modifiers: set<Keycode>, key: Key)
    requires forall i :: 0 <= i < |rows| ==> key != Chord(rows[i].0, modifiers)
    ensures Lookup(rows, modifiers, key) == Ignore
  {
    if rows != [] {
      assert key != Chord(rows[0].0, modifiers);
      LookupMissesRows(rows[1..], modifiers, key);
    }
  }

  /** A table is indexed by `rowOf` when `rowOf` finds each row from its key
      and names a row only for that row's key. */
  ghost predicate IndexedBy<L>(rows: seq<(Keycode, Op<L>)>, rowOf: Keycode -> Option<nat>)
  {
    && (forall i :: 0 <= i < |rows| ==> rowOf(rows[i].0) == Some(i))
    && (forall k :: rowOf(k).Some? ==> rowOf(k).value < |rows| && rows[rowOf(k).value].0 == k)
  }

  lemma IndexedRowsAreDistinct<L>(rows: seq<(Keycode, Op<L>)>, rowOf: Keycode -> Option<nat>)
    requires IndexedBy(rows, rowOf)
    ensures DistinctKeys(rows)
  {
    forall i, j | 0 <= i < j < |rows| ensures rows[i].0 != rows[j].0 {
      assert rowOf(rows[i].0) == Some(i) && rowOf(rows[j].0) == Some(j);
    }
  }

  /** Over an indexed table the switch is a lookup of the base key: the
      key's row runs when the chord holds exactly the modifiers and the key,
      and nothing runs otherwise. */
  lemma LookupIsRowOfKey<L>(rows: seq<(Keycode, Op<L>)>, modifiers: set<Keycode>, rowOf: Keycode -> Option<nat>, key: Key)
    requires IndexedBy(rows, rowOf)
    ensures Lookup(rows, modifiers, key) ==
      if rowOf(key.key).Some? && key.keys == modifiers + {key.key} then rows[rowOf(key.key).value].1 else Ignore
  {
    IndexedRowsAreDistinct(rows, rowOf);
    var r := rowOf(key.key);
    if r.Some? && key.keys == modifiers + {key.key} {
      LookupFindsRow(rows, modifiers, key, r.value);
    } else {
      forall i | 0 <= i < |rows| ensures key != Chord(rows[i].0, modifiers) {
        assert rowOf(rows[i].0) == Some(i);
      }
      LookupMissesRows(rows, modifiers, key);
    }
  }

  /** The rows of `execute` in source order: the digits, then the other
      layouts, then window and screen motion and full screen; k, j, h and l
      fall through to the arrow rows below them. */
  const DigitRows: seq<(Keycode, Op<Container>)> := [
    (Digit(DigitKey.Zero), Fit(Container.Zero)),
    (Digit(DigitKey.One), Fit(Container.One)),
    (Digit(DigitKey.Two), Fit(Container.Two)),
    (Digit(DigitKey.Three), Fit(Container.Three)),
    (Digit(DigitKey.Four), Fit(Container.Four)),
    (Digit(DigitKey.Five), Fit(Container.Five)),
    (Digit(DigitKey.Six), Fit(Container.Six)),
    (Digit(DigitKey.Seven), Fit(Container.Seven)),
    (Digit(DigitKey.Eight), Fit(Container.Eight)),
    (Digit(DigitKey.Nine), Fit(Container.Nine))
  ]

  const LayoutRows: seq<(Keycode, Op<Container>)> := [
    (Symbol(LeftBracket), Fit(Container.Left)),
    (Symbol(RightBracket), Fit(Container.Right)),
    (Letter(T), Fit(Container.Top)),
    (Letter(B), Fit(Container.Bottom)),
    (Letter(P), Fit(Container.Primary)),
    (Letter(S), Fit(Container.Secondary)),
    (Letter(U), Fit(Container.Up)),
    (Letter(D), Fit(Container.Down)),
    (Symbol(Period), Fit(Container.Next)),
    (Symbol(Comma), Fit(Container.Back)),
    (Letter(M), Fit(Container.Middle))
  ]

  const MotionRows: seq<(Keycode, Op<Container>)> := [
    (Letter(K), PreviousWindow),
    (Special(UpArrow), PreviousWindow),
    (Letter(J), NextWindow),
    (Special(DownArrow), NextWindow),
    (Letter(H), PreviousScreen),
    (Special(LeftArrow), PreviousScreen),
    (Letter(L), NextScreen),
    (Special(RightArrow), NextScreen),
    (Symbol(Equals), ToggleFullScreen)
  ]

  const Rows: seq<(Keycode, Op<Container>)> := DigitRows + LayoutRows + MotionRows

  /** `execute(_ key:)`. */
  function Execute(key: Key): Op<Container>
  {
    Lookup(Rows, Modifiers, key)
  }

  /** What each key does under option and control, key by key: the
      reference the table is checked against. */
  function Binding(k: Keycode): Op<Container>
  {
    match k
    case Digit(d) =>
      (match d
        case Zero => Fit(Container.Zero) case One => Fit(Container.One)
        case Two => Fit(Container.Two) case Three => Fit(Container.Three)
        case Four => Fit(Container.Four) case Five => Fit(Container.Five)
        case Six => Fit(Container.Six) case Seven => Fit(Container.Seven)
        case Eight => Fit(Container.Eight) case Nine => Fit(Container.Nine))
    case Symbol(c) =>
      (match c
        case LeftBracket => Fit(Container.Left) case RightBracket => Fit(Container.Right)
        case Period => Fit(Container.Next) case Comma => Fit(Container.Back)
        case Equals => ToggleFullScreen
        case _ => Ignore)
    case Letter(c) =>
      (match c
        case T => Fit(Container.Top) case B => Fit(Container.Bottom)
        case P => Fit(Container.Primary) case S => Fit(Container.Secondary)
        case U => Fit(Container.Up) case D => Fit(Container.Down)
        case M => Fit(Container.Middle)
        case K => PreviousWindow case J => NextWindow
        case H => PreviousScreen case L => NextScreen
        case _ => Ignore)
    case Special(c) =>
      (match c
        case UpArrow => PreviousWindow case DownArrow => NextWindow
        case LeftArrow => PreviousScreen case RightArrow => NextScreen
        case _ => Ignore)
    case _ => Ignore
  }

  /** The row of each key of the table, by its position in `Rows`. */
  function RowIndex(k: Keycode): Option<nat>
  {
    match k
    case Digit(d) =>
      Some(match d
        case Zero => 0 case One => 1 case Two => 2 case Three => 3 case Four => 4
        case Five => 5 case Six => 6 case Seven => 7 case Eight => 8 case Nine => 9)
    case Symbol(c) =>
      (match c
        case LeftBracket => Some(10) case RightBracket => Some(11)
        case Period => Some(18) case Comma => Some(19) case Equals => Some(29)
        case _ => None)
    case Letter(c) =>
      (match c
        case T => Some(12) case B => Some(13) case P => Some(14) case S => Some(15)
        case U => Some(16) case D => Some(17) case M => Some(20) case K => Some(21)
        case J => Some(23) case H => Some(25) case L => Some(27)
        case _ => None)
    case Special(c) =>
      (match c
        case UpArrow => Some(22) case DownArrow => Some(24)
        case LeftArrow => Some(26) case RightArrow => Some(28)
        case _ => None)
    case _ => None
  }

  predicate IsRowKey(k: Keycode)
  {
    exists i :: 0 <= i < |Rows| && Rows[i].0 == k
  }

  /** Each row is found from its key and does what `Binding` says for that
      key: the digit rows, the layout rows and the motion rows. */
  lemma DigitRowsIndexed()
    ensures forall i :: 0 <= i < |DigitRows| ==>
      RowIndex(DigitRows[i].0) == Some(i) && DigitRows[i].1 == Binding(DigitRows[i].0)
  {
    assert forall i :: 0 <= i < 5 ==>
      RowIndex(DigitRows[i].0) == Some(i) && DigitRows[i].1 == Binding(DigitRows[i].0);
  }

  lemma LayoutRowsIndexed()
    ensures forall i :: 0 <= i < |LayoutRows| ==>
      RowIndex(LayoutRows[i].0) == Some(10 + i) && LayoutRows[i].1 == Binding(LayoutRows[i].0)
  {
  }

  lemma MotionRowsIndexed()
    ensures forall i :: 0 <= i < |MotionRows| ==>
      RowIndex(MotionRows[i].0) == Some(21 + i) && MotionRows[i].1 == Binding(MotionRows[i].0)
  {
  }

  /** The three groups together: every row of the table is found from its
      key and does what `Binding` says. */
  lemma EveryRowIndexed()
    ensures forall i :: 0 <= i < |Rows| ==>
      RowIndex(Rows[i].0) == Some(i) && Rows[i].1 == Binding(Rows[i].0)
  {
    DigitRowsIndexed();
    LayoutRowsIndexed();
    MotionRowsIndexed();
    forall i | 0 <= i < |Rows|
      ensures RowIndex(Rows[i].0) == Some(i) && Rows[i].1 == Binding(Rows[i].0)
    {
      if i < 10 {
        assert Rows[i] == DigitRows[i];
      } else if i < 21 {
        assert Rows[i] == LayoutRows[i - 10];
      } else {
        assert Rows[i] == MotionRows[i - 21];
      }
    }
  }

  /** `RowIndex` names a row only for that row's key. */
  lemma RowIndexNamesItsRow()
    ensures forall k :: RowIndex(k).Some? ==> RowIndex(k).value < |Rows| && Rows[RowIndex(k).value].0 == k
  {
  }

  /** A key without a row does nothing. */
  lemma UnboundKeysHaveNoRow()
    ensures forall k :: RowIndex(k).None? <==> Binding(k).Ignore?
  {
  }

  /** `RowIndex` indexes the table, so no key has two rows; every row does
      what `Binding` says, so none is a no-op, and exactly the keys with a
      row do something. */
  lemma RowsAreIndexed()
    ensures IndexedBy(Rows, RowIndex)
    ensures DistinctKeys(Rows) && NoIgnoreRow(Rows)
    ensures forall i :: 0 <= i < |Rows| ==> Rows[i].1 == Binding(Rows[i].0)
    ensures forall k :: IsRowKey(k) <==> !Binding(k).Ignore?
  {
    EveryRowIndexed();
    RowIndexNamesItsRow();
    UnboundKeysHaveNoRow();
    IndexedRowsAreDistinct(Rows, RowIndex);
  }

  /** `execute` runs the binding of the chord's base key when the chord holds
      exactly option, control and that key, and nothing otherwise. */
  lemma ExecuteIsBinding(key: Key)
    ensures Execute(key) == if key.keys == Modifiers + {key.key} then Binding(key.key) else Ignore
  {
    RowsAreIndexed();
    LookupIsRowOfKey(Rows, Modifiers, RowIndex, key);
  }

  /** A chord is dispatched exactly when its base key has a row and it holds
      exactly option and control besides; it then runs that row. */
  lemma ExecuteCharacterized(key: Key)
    ensures !Execute(key).Ignore? <==> IsRowKey(key.key) && key.keys == Modifiers + {key.key}
    ensures forall i :: 0 <= i < |Rows| && key == Chord(Rows[i].0, Modifiers) ==> Execute(key) == Rows[i].1
  {
    RowsAreIndexed();
    ExecuteIsBinding(key);
  }

  /** For a key event: it is dispatched exactly when its key has a binding
      and, of shift, control, command, option and caps lock, exactly option
      and control are held; it then runs that binding. Caps lock, shift or
      command held all fall to the default branch. */
  lemma EventDispatch(k: Keycode, flags: Flags)
    ensures !Execute(Chord(k, Held(flags))).Ignore? <==> !Binding(k).Ignore? && Held(flags) == Modifiers
    ensures Held(flags) == Modifiers ==> Execute(Chord(k, Held(flags))) == Binding(k)
    ensures Includes(flags, CapsLockFlag) || Includes(flags, ShiftFlag) || Includes(flags, CommandFlag) ==>
      Execute(Chord(k, Held(flags))).Ignore?
  {
    var key := Chord(k, Held(flags));
    ExecuteIsBinding(key);
    if !Binding(k).Ignore? {
      assert k !in PutKeys;
      if key.keys == Modifiers + {k} {
        assert Held(flags) == Modifiers by {
          forall c | c in Held(flags) ensures c in Modifiers {
            assert c in key.keys && c != k;
          }
        }
      }
    }
  }

  /** A key chorded with exactly the modifiers runs its binding. */
  lemma ExecuteChordIsBinding(k: Keycode)
    ensures Execute(Chord(k, Modifiers)) == Binding(k)
  {
    ExecuteIsBinding(Chord(k, Modifiers));
  }

  /** The digit layouts of the table: the digits give the grid cells, 0
      the whole usable area. */
  lemma ExecuteDigitLayouts()
    ensures Execute(Chord(Digit(DigitKey.Zero), Modifiers)) == Fit(Container.Zero)
    ensures Execute(Chord(Digit(DigitKey.One), Modifiers)) == Fit(Container.One)
    ensures Execute(Chord(Digit(DigitKey.Five), Modifiers)) == Fit(Container.Five)
    ensures Execute(Chord(Digit(DigitKey.Nine), Modifiers)) == Fit(Container.Nine)
  {
    ExecuteChordIsBinding(Digit(DigitKey.Zero));
    ExecuteChordIsBinding(Digit(DigitKey.One));
    ExecuteChordIsBinding(Digit(DigitKey.Five));
    ExecuteChordIsBinding(Digit(DigitKey.Nine));
  }

  /** m gives the centred square, period and comma the neighbouring
      screens, and = full screen. */
  lemma ExecuteSymbolLayouts()
    ensures Execute(Chord(Letter(M), Modifiers)) == Fit(Container.Middle)
    ensures Execute(Chord(Symbol(Period), Modifiers)) == Fit(Container.Next)
    ensures Execute(Chord(Symbol(Comma), Modifiers)) == Fit(Container.Back)
    ensures Execute(Chord(Symbol(Equals), Modifiers)) == ToggleFullScreen
  {
    ExecuteChordIsBinding(Letter(M));
    ExecuteChordIsBinding(Symbol(Period));
    ExecuteChordIsBinding(Symbol(Comma));
    ExecuteChordIsBinding(Symbol(Equals));
  }

  /** k and j do what the up and down arrows do: the previous and the next
      window of the screen. */
  lemma ExecuteWindowMotion()
    ensures Execute(Chord(Letter(K), Modifiers)) == Execute(Chord(Special(UpArrow), Modifiers)) == PreviousWindow
    ensures Execute(Chord(Letter(J), Modifiers)) == Execute(Chord(Special(DownArrow), Modifiers)) == NextWindow
  {
    ExecuteChordIsBinding(Letter(K));
    ExecuteChordIsBinding(Special(UpArrow));
    ExecuteChordIsBinding(Letter(J));
    ExecuteChordIsBinding(Special(DownArrow));
  }

  /** h and l do what the left and right arrows do: the previous and the
      next screen. */
  lemma ExecuteScreenMotion()
    ensures Execute(Chord(Letter(H), Modifiers)) == Execute(Chord(Special(LeftArrow), Modifiers)) == PreviousScreen
    ensures Execute(Chord(Letter(L), Modifiers)) == Execute(Chord(Special(RightArrow), Modifiers)) == NextScreen
  {
    ExecuteChordIsBinding(Letter(H));
    ExecuteChordIsBinding(Special(LeftArrow));
    ExecuteChordIsBinding(Letter(L));
    ExecuteChordIsBinding(Special(RightArrow));
  }

  /** The corrected `Modifier(keys)` and `put` undo each other: the flag word
      of a set of modifiers gives back the modifiers `put` looks for. */
  lemma HeldInvertsFlagsOf(keys: set<Keycode>)
    ensures Held(FlagsOf(keys)) == keys * PutKeys
  {
    FlagsOfHasExactly(keys);
  }
}

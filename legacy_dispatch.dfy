/** The older dispatcher of app.swift: the same chords and the same switch as
    key.swift, but the chord modifiers are shift, option and control, h, m
    and l fit the window to the three rows of the older layouts, there are
    no k/j/h/l motion rows, and the status menu has three handlers. */
module LegacyDispatch {
  import opened Seqs
  import opened Keycodes
  import opened Keys
  import G = Geometry
  import LG = LegacyGeometry
  import AD = AppDelegate
  import LN = LegacyNavigation
  import W = Windows

  /** The modifiers every chord of the older table carries. */
  const LegacyModifiers: set<Keycode> := {Special(Shift), Special(Option), Special(Control)}

  /** The rows of the older `execute` in source order: the digits, the three
      rows, the other layouts, then window and screen motion on the arrows
      and full screen. */
  const LegacyDigitRows: seq<(Keycode, Op<LG.LegacyContainer>)> := [
    (Digit(DigitKey.Zero), Fit(LG.LegacyContainer.Zero)),
    (Digit(DigitKey.One), Fit(LG.LegacyContainer.One)),
    (Digit(DigitKey.Two), Fit(LG.LegacyContainer.Two)),
    (Digit(DigitKey.Three), Fit(LG.LegacyContainer.Three)),
    (Digit(DigitKey.Four), Fit(LG.LegacyContainer.Four)),
    (Digit(DigitKey.Five), Fit(LG.LegacyContainer.Five)),
    (Digit(DigitKey.Six), Fit(LG.LegacyContainer.Six)),
    (Digit(DigitKey.Seven), Fit(LG.LegacyContainer.Seven)),
    (Digit(DigitKey.Eight), Fit(LG.LegacyContainer.Eight)),
    (Digit(DigitKey.Nine), Fit(LG.LegacyContainer.Nine))
  ]

  const LegacyRowRows: seq<(Keycode, Op<LG.LegacyContainer>)> := [
    (Letter(H), Fit(LG.LegacyContainer.H)),
    (Letter(M), Fit(LG.LegacyContainer.M)),
    (Letter(L), Fit(LG.LegacyContainer.L))
  ]

  const LegacyLayoutRows: seq<(Keycode, Op<LG.LegacyContainer>)> := [
    (Symbol(LeftBracket), Fit(LG.LegacyContainer.Left)),
    (Symbol(RightBracket), Fit(LG.LegacyContainer.Right)),
    (Letter(T), Fit(LG.LegacyContainer.Top)),
    (Letter(B), Fit(LG.LegacyContainer.Bottom)),
    (Letter(P), Fit(LG.LegacyContainer.Primary)),
    (Letter(S), Fit(LG.LegacyContainer.Secondary)),
    (Letter(U), Fit(LG.LegacyContainer.Up)),
    (Letter(D), Fit(LG.LegacyContainer.Down)),
    (Symbol(Period), Fit(LG.LegacyContainer.Next)),
    (Symbol(Comma), Fit(LG.LegacyContainer.Back))
  ]

  const LegacyMotionRows: seq<(Keycode, Op<LG.LegacyContainer>)> := [
    (Special(UpArrow), PreviousWindow),
    (Special(DownArrow), NextWindow),
    (Special(LeftArrow), PreviousScreen),
    (Special(RightArrow), NextScreen),
    (Symbol(Equals), ToggleFullScreen)
  ]

  const LegacyRows: seq<(Keycode, Op<LG.LegacyContainer>)> :=
    LegacyDigitRows + LegacyRowRows + LegacyLayoutRows + LegacyMotionRows

  /** The older `execute(_ key:)`. */
  function LegacyExecute(key: Key): Op<LG.LegacyContainer>
  {
    Lookup(LegacyRows, LegacyModifiers, key)
  }

  /** The older `execute(_ keycode:)`: the key with the older modifiers. */
  function LegacyExecuteKeycode(k: Keycode): Op<LG.LegacyContainer>
  {
    LegacyExecute(Chord(k, LegacyModifiers))
  }

  /** What each key does in the older table, key by key. */
  function LegacyBinding(k: Keycode): Op<LG.LegacyContainer>
  {
    match k
    case Digit(d) =>
      (match d
        case Zero => Fit(LG.LegacyContainer.Zero) case One => Fit(LG.LegacyContainer.One)
        case Two => Fit(LG.LegacyContainer.Two) case Three => Fit(LG.LegacyContainer.Three)
        case Four => Fit(LG.LegacyContainer.Four) case Five => Fit(LG.LegacyContainer.Five)
        case Six => Fit(LG.LegacyContainer.Six) case Seven => Fit(LG.LegacyContainer.Seven)
        case Eight => Fit(LG.LegacyContainer.Eight) case Nine => Fit(LG.LegacyContainer.Nine))
    case Symbol(c) =>
      (match c
        case LeftBracket => Fit(LG.LegacyContainer.Left) case RightBracket => Fit(LG.LegacyContainer.Right)
        case Period => Fit(LG.LegacyContainer.Next) case Comma => Fit(LG.LegacyContainer.Back)
        case Equals => ToggleFullScreen
        case _ => Ignore)
    case Letter(c) =>
      (match c
        case H => Fit(LG.LegacyContainer.H) case M => Fit(LG.LegacyContainer.M)
        case L => Fit(LG.LegacyContainer.L)
        case T => Fit(LG.LegacyContainer.Top) case B => Fit(LG.LegacyContainer.Bottom)
        case P => Fit(LG.LegacyContainer.Primary) case S => Fit(LG.LegacyContainer.Secondary)
        case U => Fit(LG.LegacyContainer.Up) case D => Fit(LG.LegacyContainer.Down)
        case _ => Ignore)
    case Special(c) =>
      (match c
        case UpArrow => PreviousWindow case DownArrow => NextWindow
        case LeftArrow => PreviousScreen case RightArrow => NextScreen
        case _ => Ignore)
    case _ => Ignore
  }

  /** The row of each key of the older table, by its position in `LegacyRows`. */
  function LegacyRowIndex(k: Keycode): Option<nat>
  {
    match k
    case Digit(d) =>
      Some(match d
        case Zero => 0 case One => 1 case Two => 2 case Three => 3 case Four => 4
        case Five => 5 case Six => 6 case Seven => 7 case Eight => 8 case Nine => 9)
    case Letter(c) =>
      (match c
        case H => Some(10) case M => Some(11) case L => Some(12)
        case T => Some(15) case B => Some(16) case P => Some(17) case S => Some(18)
        case U => Some(19) case D => Some(20)
        case _ => None)
    case Symbol(c) =>
      (match c
        case LeftBracket => Some(13) case RightBracket => Some(14)
        case Period => Some(21) case Comma => Some(22) case Equals => Some(27)
        case _ => None)
    case Special(c) =>
      (match c
        case UpArrow => Some(23) case DownArrow => Some(24)
        case LeftArrow => Some(25) case RightArrow => Some(26)
        case _ => None)
    case _ => None
  }

  /** Each row of the older table is found from its key and does what
      `LegacyBinding` says for that key. */
  lemma LegacyDigitRowsIndexed()
    ensures forall i :: 0 <= i < |LegacyDigitRows| ==>
      LegacyRowIndex(LegacyDigitRows[i].0) == Some(i) && LegacyDigitRows[i].1 == LegacyBinding(LegacyDigitRows[i].0)
  {
    assert forall i :: 0 <= i < 5 ==>
      LegacyRowIndex(LegacyDigitRows[i].0) == Some(i) && LegacyDigitRows[i].1 == LegacyBinding(LegacyDigitRows[i].0);
  }

  lemma LegacyRowRowsIndexed()
    ensures forall i :: 0 <= i < |LegacyRowRows| ==>
      LegacyRowIndex(LegacyRowRows[i].0) == Some(10 + i) && LegacyRowRows[i].1 == LegacyBinding(LegacyRowRows[i].0)
  {
  }

  lemma LegacyLayoutRowsIndexed()
    ensures forall i :: 0 <= i < |LegacyLayoutRows| ==>
      LegacyRowIndex(LegacyLayoutRows[i].0) == Some(13 + i) && LegacyLayoutRows[i].1 == LegacyBinding(LegacyLayoutRows[i].0)
  {
  }

  lemma LegacyMotionRowsIndexed()
    ensures forall i :: 0 <= i < |LegacyMotionRows| ==>
      LegacyRowIndex(LegacyMotionRows[i].0) == Some(23 + i) && LegacyMotionRows[i].1 == LegacyBinding(LegacyMotionRows[i].0)
  {
  }

  /** The four groups together: every row of the older table is found from
      its key and does what `LegacyBinding` says. */
  lemma EveryLegacyRowIndexed()
    ensures forall i :: 0 <= i < |LegacyRows| ==>
      LegacyRowIndex(LegacyRows[i].0) == Some(i) && LegacyRows[i].1 == LegacyBinding(LegacyRows[i].0)
  {
    LegacyDigitRowsIndexed();
    LegacyRowRowsIndexed();
    LegacyLayoutRowsIndexed();
    LegacyMotionRowsIndexed();
    forall i | 0 <= i < |LegacyRows|
      ensures LegacyRowIndex(LegacyRows[i].0) == Some(i) && LegacyRows[i].1 == LegacyBinding(LegacyRows[i].0)
    {
      if i < 10 {
        assert LegacyRows[i] == LegacyDigitRows[i];
      } else if i < 13 {
        assert LegacyRows[i] == LegacyRowRows[i - 10];
      } else if i < 23 {
        assert LegacyRows[i] == LegacyLayoutRows[i - 13];
      } else {
        assert LegacyRows[i] == LegacyMotionRows[i - 23];
      }
    }
  }

  /** `LegacyRowIndex` names a row only for that row's key. */
  lemma LegacyRowIndexNamesItsRow()
    ensures forall k :: LegacyRowIndex(k).Some? ==>
      LegacyRowIndex(k).value < |LegacyRows| && LegacyRows[LegacyRowIndex(k).value].0 == k
  {
  }

  /** A key without a row in the older table does nothing. */
  lemma LegacyUnboundKeysHaveNoRow()
    ensures forall k :: LegacyRowIndex(k).None? <==> LegacyBinding(k).Ignore?
  {
  }

  /** `LegacyRowIndex` indexes the older table, so no key has two rows, and
      every row does what `LegacyBinding` says. */
  lemma LegacyRowsAreIndexed()
    ensures IndexedBy(LegacyRows, LegacyRowIndex)
    ensures DistinctKeys(LegacyRows) && NoIgnoreRow(LegacyRows)
    ensures forall i :: 0 <= i < |LegacyRows| ==> LegacyRows[i].1 == LegacyBinding(LegacyRows[i].0)
  {
    EveryLegacyRowIndexed();
    LegacyRowIndexNamesItsRow();
    LegacyUnboundKeysHaveNoRow();
    IndexedRowsAreDistinct(LegacyRows, LegacyRowIndex);
  }

  /** The older `execute` runs the binding of the chord's base key when the
      chord holds exactly shift, option, control and that key, and nothing
      otherwise. */
  lemma LegacyExecuteIsBinding(key: Key)
    ensures LegacyExecute(key) ==
      if key.keys == LegacyModifiers + {key.key} then LegacyBinding(key.key) else Ignore
  {
    LegacyRowsAreIndexed();
    LegacyUnboundKeysHaveNoRow();
    LookupIsRowOfKey(LegacyRows, LegacyModifiers, LegacyRowIndex, key);
  }

  /** The older `execute(_ keycode:)` runs the key's binding. */
  lemma LegacyExecuteKeycodeIsBinding(k: Keycode)
    ensures LegacyExecuteKeycode(k) == LegacyBinding(k)
  {
    LegacyExecuteIsBinding(Chord(k, LegacyModifiers));
  }

  /** The three menu handlers of the older status menu: left sends the left
      bracket, right the right bracket and fill the zero key, which fit the
      window to the left half, the right half and the whole usable area. */
  lemma LegacyMenuHandlers()
    ensures LegacyExecuteKeycode(Symbol(LeftBracket)) == Fit(LG.LegacyContainer.Left)
    ensures LegacyExecuteKeycode(Symbol(RightBracket)) == Fit(LG.LegacyContainer.Right)
    ensures LegacyExecuteKeycode(Digit(DigitKey.Zero)) == Fit(LG.LegacyContainer.Zero)
  {
    LegacyExecuteKeycodeIsBinding(Symbol(LeftBracket));
    LegacyExecuteKeycodeIsBinding(Symbol(RightBracket));
    LegacyExecuteKeycodeIsBinding(Digit(DigitKey.Zero));
  }

  /** An older operation as the newer one with the same name; the three row
      layouts have none. */
  function ToNewOp(op: Op<LG.LegacyContainer>): Op<G.Container>
    requires !(op.Fit? && LG.IsRow(op.layout))
  {
    match op
    case Fit(c) => Fit(LG.ToNew(c))
    case PreviousWindow => PreviousWindow
    case NextWindow => NextWindow
    case PreviousScreen => PreviousScreen
    case NextScreen => NextScreen
    case ToggleFullScreen => ToggleFullScreen
    case Ignore => Ignore
  }

  /** Every key the older table binds to something other than a row layout
      has the same binding, under the same name, in the newer table. */
  lemma SharedBindingsAgree(k: Keycode)
    requires !LegacyBinding(k).Ignore?
    requires !(LegacyBinding(k).Fit? && LG.IsRow(LegacyBinding(k).layout))
    ensures Binding(k) == ToNewOp(LegacyBinding(k))
  {
  }

  /** Where the iterations differ: h, m and l fit the window to a row in the
      older table, while the newer one sends h and l to the previous and
      next screen and m to the centred square. */
  lemma RowKeysChanged()
    ensures LegacyExecuteKeycode(Letter(H)) == Fit(LG.LegacyContainer.H)
    ensures Execute(Chord(Letter(H), Modifiers)) == PreviousScreen
    ensures LegacyExecuteKeycode(Letter(M)) == Fit(LG.LegacyContainer.M)
    ensures Execute(Chord(Letter(M), Modifiers)) == Fit(G.Container.Middle)
    ensures LegacyExecuteKeycode(Letter(L)) == Fit(LG.LegacyContainer.L)
    ensures Execute(Chord(Letter(L), Modifiers)) == NextScreen
  {
    LegacyExecuteKeycodeIsBinding(Letter(H));
    LegacyExecuteKeycodeIsBinding(Letter(M));
    LegacyExecuteKeycodeIsBinding(Letter(L));
    ExecuteChordIsBinding(Letter(H));
    ExecuteChordIsBinding(Letter(M));
    ExecuteChordIsBinding(Letter(L));
  }

  /** k and j do nothing in the older table and move between windows in the
      newer one. */
  lemma MotionKeysAdded()
    ensures LegacyExecuteKeycode(Letter(K)) == Ignore && Execute(Chord(Letter(K), Modifiers)) == PreviousWindow
    ensures LegacyExecuteKeycode(Letter(J)) == Ignore && Execute(Chord(Letter(J), Modifiers)) == NextWindow
  {
    LegacyExecuteKeycodeIsBinding(Letter(K));
    LegacyExecuteKeycodeIsBinding(Letter(J));
    ExecuteChordIsBinding(Letter(K));
    ExecuteChordIsBinding(Letter(J));
  }

  /** The iterations' chords never cross: a chord built with the older
      modifiers matches no row of the newer table, and a chord built with the
      newer modifiers matches no row of the older one, since the two differ
      in shift, which no row key is. */
  lemma ChordsDoNotCross(k: Keycode)
    ensures Execute(Chord(k, LegacyModifiers)) == Ignore
    ensures LegacyExecute(Chord(k, Modifiers)) == Ignore
  {
    ExecuteIsBinding(Chord(k, LegacyModifiers));
    LegacyExecuteIsBinding(Chord(k, Modifiers));
    if Chord(k, LegacyModifiers).keys == Modifiers + {k} {
      assert Special(Shift) in Modifiers + {k};
    }
    if Chord(k, Modifiers).keys == LegacyModifiers + {k} {
      assert Special(Shift) in Modifiers + {k};
    }
  }

  /** The older `currentScreenIndex()`: the screen of the current window,
      otherwise 0. In the older iteration a window's screen is the one holding
      its midpoint, so the current screen is the first screen holding the
      focused window's midpoint, or the nearest one when none does. `all` is
      the older window list, whose first focused window is the current one. */
  function LegacyCurrentScreenIndex(all: seq<W.Window>, screens: seq<G.Screen>): (r: nat)
    requires AD.CurrentWindow(all).Some? ==> |screens| > 0
    ensures |screens| > 0 ==> r < |screens|
    ensures AD.CurrentWindow(all).None? ==> r == 0
    ensures AD.CurrentWindow(all).Some? ==>
      r == LN.LegacyAssignScreen(AD.CurrentWindow(all).value.frame, screens)
    ensures AD.CurrentWindow(all).Some? ==>
      var mid := W.Center(AD.CurrentWindow(all).value.frame);
      (exists i :: 0 <= i < |screens| && G.PointIn(mid, screens[i].frame)) ==> G.PointIn(mid, screens[r].frame)
  {
    match AD.CurrentWindow(all)
    case Some(w) => LN.LegacyAssignScreen(w.frame, screens)
    case None => 0
  }
}

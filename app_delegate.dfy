/** The application delegate of appdelegate.swift, as far as it decides
    anything: the chord modifiers, `execute(_ keycode:)`, the menu handlers
    that each send one keycode, the key-equivalent menu items and their
    modifier mask, `disableItems`, and the current window and screen. */
module AppDelegate {
  import opened Seqs
  import opened Keycodes
  import opened ModifierFlags
  import K = Keys
  import G = Geometry
  import W = Windows
  import KE = KeyEquivalents

  /** `execute(_ keycode:)`: the chord of the key and the modifiers. */
  function ExecuteKeycode(k: Keycode): K.Op<G.Container>
  {
    K.Execute(K.Chord(k, K.Modifiers))
  }

  /** Every chord `execute(_ keycode:)` builds holds exactly option, control
      and the key, so it runs the key's binding. */
  lemma ExecuteKeycodeIsBinding(k: Keycode)
    ensures K.Chord(k, K.Modifiers).keys == {Special(Option), Special(Control), k}
    ensures ExecuteKeycode(k) == K.Binding(k)
  {
    K.ExecuteChordIsBinding(k);
  }

  /** The number of a grid-cell handler, 1 ... 9. */
  type CellNumber = n: int | 1 <= n <= 9 witness 1

  /** The `@objc` actions that forward a keycode. */
  datatype Handler =
    | Left | Right | Primary | Secondary | Top | Bottom | Middle | Fill | FullScreen
    | NextScreen | PreviousScreen | NextWindow | PreviousWindow | JumpWindow
    | MoveToNextScreen | MoveToPreviousScreen
    | Cell(n: CellNumber)

  /** The keycode each handler sends. */
  function ForwardedKey(h: Handler): Keycode
  {
    match h
    case Left => Symbol(LeftBracket)
    case Right => Symbol(RightBracket)
    case Primary => Letter(P)
    case Secondary => Letter(S)
    case Top => Letter(T)
    case Bottom => Letter(B)
    case Middle => Letter(M)
    case Fill => Digit(DigitKey.Zero)
    case FullScreen => Symbol(Equals)
    case NextScreen => Special(RightArrow)
    case PreviousScreen => Special(LeftArrow)
    case NextWindow => Special(DownArrow)
    case PreviousWindow => Special(UpArrow)
    case JumpWindow => Special(Space)
    case MoveToNextScreen => Symbol(Period)
    case MoveToPreviousScreen => Symbol(Comma)
    case Cell(n) =>
      Digit(if n == 1 then DigitKey.One else if n == 2 then DigitKey.Two
        else if n == 3 then DigitKey.Three else if n == 4 then DigitKey.Four
        else if n == 5 then DigitKey.Five else if n == 6 then DigitKey.Six
        else if n == 7 then DigitKey.Seven else if n == 8 then DigitKey.Eight
        else DigitKey.Nine)
  }

  /** The operation each handler is named for; the window jump has none. */
  function Purpose(h: Handler): Option<K.Op<G.Container>>
  {
    match h
    case Left => Some(K.Fit(G.Container.Left))
    case Right => Some(K.Fit(G.Container.Right))
    case Primary => Some(K.Fit(G.Container.Primary))
    case Secondary => Some(K.Fit(G.Container.Secondary))
    case Top => Some(K.Fit(G.Container.Top))
    case Bottom => Some(K.Fit(G.Container.Bottom))
    case Middle => Some(K.Fit(G.Container.Middle))
    case Fill => Some(K.Fit(G.Container.Zero))
    case FullScreen => Some(K.ToggleFullScreen)
    case NextScreen => Some(K.NextScreen)
    case PreviousScreen => Some(K.PreviousScreen)
    case NextWindow => Some(K.NextWindow)
    case PreviousWindow => Some(K.PreviousWindow)
    case JumpWindow => None
    case MoveToNextScreen => Some(K.Fit(G.Container.Next))
    case MoveToPreviousScreen => Some(K.Fit(G.Container.Back))
    case Cell(n) =>
      Some(K.Fit(if n == 1 then G.Container.One else if n == 2 then G.Container.Two
        else if n == 3 then G.Container.Three else if n == 4 then G.Container.Four
        else if n == 5 then G.Container.Five else if n == 6 then G.Container.Six
        else if n == 7 then G.Container.Seven else if n == 8 then G.Container.Eight
        else G.Container.Nine))
  }

  /** The key each handler sends is bound to the operation the handler is
      named for; the space key of the window jump is bound to nothing. */
  lemma ForwardedKeysAreBound(h: Handler)
    ensures Purpose(h).Some? ==> K.Binding(ForwardedKey(h)) == Purpose(h).value
    ensures Purpose(h).None? <==> h.JumpWindow?
    ensures h.JumpWindow? ==> K.Binding(ForwardedKey(h)) == K.Ignore
  {
  }

  /** Every handler but the window jump runs the operation it is named for;
      the window jump sends the space key, which has no row, so it does
      nothing. */
  lemma HandlersRunTheirPurpose(h: Handler)
    ensures Purpose(h).Some? ==> ExecuteKeycode(ForwardedKey(h)) == Purpose(h).value
    ensures h.JumpWindow? ==> ExecuteKeycode(ForwardedKey(h)) == K.Ignore
  {
    ExecuteKeycodeIsBinding(ForwardedKey(h));
    ForwardedKeysAreBound(h);
  }

  /** `_modifiers`, `Modifier([.option, .control])`: the option set built
      from the option and control flags, the same two modifiers as the
      chord set `modifiers`. */
  const MenuMask: Flags := FlagsOf(K.Modifiers)

  /** The menu mask holds exactly option and control, so the key event of a
      menu shortcut is the table's chord of its key. */
  lemma MenuMaskIsTheChord(k: Keycode)
    ensures MenuMask == OptionFlag | ControlFlag
    ensures K.Held(MenuMask) == K.Modifiers
    ensures K.Chord(k, K.Held(MenuMask)) == K.Chord(k, K.Modifiers)
  {
    K.HeldInvertsFlagsOf(K.Modifiers);
  }

  /** The action of a menu item: a forwarding handler or one of the
      application's own actions. */
  datatype Selector = Handles(handler: Handler) | Restart | ToggleLaunchAtLogin | Quit

  /** An `NSMenuItem`: title, action, key equivalent and modifier mask. */
  class MenuItem {
    var title: string
    var action: Option<Selector>
    var keyEquivalent: string
    var mask: Flags

    /** A new item has AppKit's default mask, the command flag. */
    constructor (title: string, action: Option<Selector>, keyEquivalent: string)
      ensures this.title == title && this.action == action
      ensures this.keyEquivalent == keyEquivalent && mask == CommandFlag
    {
      this.title := title;
      this.action := action;
      this.keyEquivalent := keyEquivalent;
      mask := CommandFlag;
    }
  }

  /** An `NSMenu`: its items in order. A menu never holds the same item
      twice. */
  class Menu {
    var items: seq<MenuItem>

    ghost predicate Valid()
      reads this
    {
      forall i, j :: 0 <= i < j < |items| ==> items[i] != items[j]
    }

    constructor ()
      ensures items == [] && Valid()
    {
      items := [];
    }

    /** `addItem(withTitle:action:key:)`: append a new item whose key
        equivalent is `key` and whose modifier mask is `_modifiers`; nothing
        else in the menu changes. */
    method AddItem(title: string, action: Option<Selector>, key: string) returns (item: MenuItem)
      requires Valid()
      modifies this
      ensures Valid() && fresh(item)
      ensures items == old(items) + [item]
      ensures item.title == title && item.action == action
      ensures item.keyEquivalent == key && item.mask == MenuMask
    {
      item := new MenuItem(title, action, key);
      items := items + [item];
      item.mask := MenuMask;
    }

    /** The overload that takes a `KeyEquivalent`: the same as
        `addItem(withTitle:action:key:)` given the key's one-character
        string, so the new item also carries `_modifiers`. */
    method AddKeyEquivalentItem(title: string, action: Option<Selector>, key: KE.KeyEquivalent)
      returns (item: MenuItem)
      requires Valid()
      modifies this
      ensures Valid() && fresh(item)
      ensures items == old(items) + [item]
      ensures item.title == title && item.action == action
      ensures item.keyEquivalent == KE.String(key) && item.mask == MenuMask
    {
      item := AddItem(title, action, KE.String(key));
    }

    /** `disableItems`: clear the action of every item after the third. The
        list and every other field of every item stay as they were. */
    method DisableItems()
      requires Valid()
      modifies set i | 0 <= i < |items| :: items[i]
      ensures items == old(items)
      ensures forall i :: 0 <= i < |items| ==>
        items[i].action == if i > 2 then None else old(items[i].action)
      ensures forall i :: 0 <= i < |items| ==>
        && items[i].title == old(items[i].title)
        && items[i].keyEquivalent == old(items[i].keyEquivalent)
        && items[i].mask == old(items[i].mask)
    {
      for i := 0 to |items|
        invariant forall j :: 0 <= j < i ==>
          items[j].action == if j > 2 then None else old(items[j].action)
        invariant forall j :: i <= j < |items| ==> items[j].action == old(items[j].action)
        invariant forall j :: 0 <= j < |items| ==>
          && items[j].title == old(items[j].title)
          && items[j].keyEquivalent == old(items[j].keyEquivalent)
          && items[j].mask == old(items[j].mask)
      {
        if i > 2 {
          items[i].action := None;
        }
      }
    }
  }

  /** `currentWindow`: the first focused window of the window list, in its
      sorted order. */
  function CurrentWindow(all: seq<W.Window>): (r: Option<W.Window>)
    ensures r.Some? ==> W.IsFocused(r.value) && r.value in all
    ensures r.Some? ==>
      exists i :: 0 <= i < |all| && all[i] == r.value && (forall j :: 0 <= j < i ==> !W.IsFocused(all[j]))
    ensures r.None? <==> forall i :: 0 <= i < |all| ==> !W.IsFocused(all[i])
  {
    match FirstIndex(all, W.IsFocused)
    case Some(i) => Some(all[i])
    case None => None
  }

  /** `currentScreenIndex`: the screen of the current window, otherwise 0.
      The screen of a window needs a screen to exist. */
  function CurrentScreenIndex(all: seq<W.Window>, screens: seq<G.Screen>, unit: real, menubarHeight: real): (r: nat)
    requires CurrentWindow(all).Some? ==> |screens| > 0
    ensures |screens| > 0 ==> r < |screens|
    ensures CurrentWindow(all).None? ==> r == 0
    ensures CurrentWindow(all).Some? ==>
      r == W.AssignScreen(CurrentWindow(all).value.frame, screens, unit, menubarHeight)
  {
    match CurrentWindow(all)
    case Some(w) => W.AssignScreen(w.frame, screens, unit, menubarHeight)
    case None => 0
  }
}

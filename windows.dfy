/** The window record of window.swift: its label, its place in the window
    order, the screen it is assigned to, the full-screen test and the toggle
    decision of `fit`. A window is a snapshot of what the accessibility API
    reported for it: its application's name and frontmost flag, its ordinal in
    the application's window list, its accessibility frame (origin at the top
    left) and its main flag. */
module Windows {
  import opened Geometry
  import opened Seqs
  import opened CString
  import Sorting

  datatype Window = Window(app: seq<byte>, index: nat, frame: Rect, isMain: bool, active: bool)

  /** `isFocused`: the application is frontmost and the window is its main window. */
  predicate IsFocused(w: Window)
  {
    w.active && w.isMain
  }

  // ---------------------------------------------------------------- labels

  const Colon: byte := 58

  predicate IsDigit(b: byte)
  {
    48 <= b <= 57
  }

  predicate AllDigits(s: seq<byte>)
  {
    forall i :: 0 <= i < |s| ==> IsDigit(s[i])
  }

  /** The decimal digits of n, as string interpolation writes a non-negative Int. */
  function Decimal(n: nat): (s: seq<byte>)
    ensures |s| >= 1 && AllDigits(s)
  {
    if n < 10 then [(48 + n) as byte]
    else Decimal(n / 10) + [(48 + n % 10) as byte]
  }

  /** The value of a string of decimal digits. */
  function ParseDecimal(s: seq<byte>): nat
    requires AllDigits(s)
  {
    if s == [] then 0
    else 10 * ParseDecimal(s[..|s| - 1]) + (s[|s| - 1] - 48) as int
  }

  lemma {:induction false} DecimalRoundTrip(n: nat)
    ensures ParseDecimal(Decimal(n)) == n
  {
    var s := Decimal(n);
    if n >= 10 {
      DecimalRoundTrip(n / 10);
      assert s[..|s| - 1] == Decimal(n / 10);
    }
  }

  /** `description`: the application name, ":" and the window's ordinal. */
  function Description(w: Window): seq<byte>
  {
    w.app + [Colon] + Decimal(w.index)
  }

  /** The label determines the application name and the ordinal: the ordinal is
      what follows the last ":", since its digits hold no ":". */
  lemma DescriptionInjective(a: Window, b: Window)
    requires Description(a) == Description(b)
    ensures a.app == b.app && a.index == b.index
  {
    var s := Description(a);
    var da, db := Decimal(a.index), Decimal(b.index);
    assert |da| == |db| by {
      assert s[|s| - |da| - 1] == Colon && s[|s| - |db| - 1] == Colon;
      assert forall i :: |s| - |da| <= i < |s| ==> s[i] == da[i - (|s| - |da|)];
      assert forall i :: |s| - |db| <= i < |s| ==> s[i] == db[i - (|s| - |db|)];
    }
    assert a.app == s[..|a.app|] && b.app == s[..|b.app|];
    assert da == s[|s| - |da|..] && db == s[|s| - |db|..];
    DecimalRoundTrip(a.index);
    DecimalRoundTrip(b.index);
  }

  /** Two windows that are not the same window of the same application have
      labels that strcmp tells apart; in particular two windows of one
      application always differ in the final tie-break of the order. */
  lemma DescriptionsDiffer(a: Window, b: Window)
    requires NoNul(a.app) && NoNul(b.app)
    requires a.app != b.app || a.index != b.index
    ensures Strcmp(Description(a), Description(b)) != 0
  {
    DescriptionHasNoNul(a);
    DescriptionHasNoNul(b);
    if Description(a) == Description(b) {
      DescriptionInjective(a, b);
    }
    StrcmpZeroIffEqual(Description(a), Description(b));
  }

  lemma DescriptionHasNoNul(w: Window)
    requires NoNul(w.app)
    ensures NoNul(Description(w))
  {
    var s := Description(w);
    forall i | 0 <= i < |s| ensures s[i] != 0 {
      if i >= |w.app| + 1 {
        assert s[i] == Decimal(w.index)[i - |w.app| - 1];
      }
    }
  }

  // ---------------------------------------------------------------- order

  /** `isPrior(to:)` exactly as window.swift writes it: its height clause
      compares the other window's height with itself, so it never holds. */
  predicate IsPriorAsWritten(a: Window, b: Window)
  {
    var p, q := a.frame, b.frame;
    || p.x < q.x
    || (p.x == q.x && p.y < q.y)
    || (p.x == q.x && p.y == q.y && p.width < q.width)
    || (p.x == q.x && p.y == q.y && p.width == q.width && q.height < q.height)
    || (p.x == q.x && p.y == q.y && p.width == q.width && p.height == q.height
        && Less(Description(a), Description(b)))
  }

  /** `isPrior(to:)` as intended: x, y and width ascending, height descending
      (the taller window first), and the label ascending. */
  predicate IsPrior(a: Window, b: Window)
  {
    var p, q := a.frame, b.frame;
    || p.x < q.x
    || (p.x == q.x && p.y < q.y)
    || (p.x == q.x && p.y == q.y && p.width < q.width)
    || (p.x == q.x && p.y == q.y && p.width == q.width && q.height < p.height)
    || (p.x == q.x && p.y == q.y && p.width == q.width && p.height == q.height
        && Less(Description(a), Description(b)))
  }

  /** As written, two windows at the same place and of the same width but of
      different heights are ordered neither way, whatever their labels. */
  lemma AsWrittenIgnoresHeight(a: Window, b: Window)
    requires a.frame.x == b.frame.x && a.frame.y == b.frame.y && a.frame.width == b.frame.width
    ensures IsPriorAsWritten(a, b) <==> a.frame.height == b.frame.height && Less(Description(a), Description(b))
  {
  }

  /** As written the order is not a strict weak order, so sorting by it is not
      well defined: p and q are unordered, q and r are unordered, yet p comes
      before r. */
  lemma AsWrittenIsNotAWeakOrder()
    ensures
      var p := Window([97], 0, Rect(0.0, 0.0, 100.0, 100.0), false, false);
      var q := Window([120], 0, Rect(0.0, 0.0, 100.0, 200.0), false, false);
      var r := Window([98], 0, Rect(0.0, 0.0, 100.0, 100.0), false, false);
      && !IsPriorAsWritten(p, q) && !IsPriorAsWritten(q, p)
      && !IsPriorAsWritten(q, r) && !IsPriorAsWritten(r, q)
      && IsPriorAsWritten(p, r)
      && !Sorting.StrictWeakOrderOn(IsPriorAsWritten, [p, q, r])
  {
    var p := Window([97], 0, Rect(0.0, 0.0, 100.0, 100.0), false, false);
    var q := Window([120], 0, Rect(0.0, 0.0, 100.0, 200.0), false, false);
    var r := Window([98], 0, Rect(0.0, 0.0, 100.0, 100.0), false, false);
    assert Description(p) == [97, 58, 48] && Description(r) == [98, 58, 48];
    assert Strcmp(Description(p), Description(r)) == -1;
    assert p in [p, q, r] && q in [p, q, r] && r in [p, q, r];
  }

  /** The reference for the order: the sign-valued comparison of two reals. */
  function Compare(a: real, b: real): int
  {
    if a < b then -1 else if b < a then 1 else 0
  }

  /** The first non-zero comparison decides. */
  function Lexicographic(cs: seq<int>): int
  {
    if cs == [] then 0 else if cs[0] != 0 then cs[0] else Lexicographic(cs[1..])
  }

  /** The sort key of a window compared lexicographically with another's. */
  function KeyCompare(a: Window, b: Window): int
  {
    Lexicographic([Compare(a.frame.x, b.frame.x), Compare(a.frame.y, b.frame.y),
                   Compare(a.frame.width, b.frame.width), Compare(b.frame.height, a.frame.height),
                   Strcmp(Description(a), Description(b))])
  }

  /** isPrior is exactly the lexicographic comparison of (x ascending, y
      ascending, width ascending, height descending, label ascending). */
  lemma IsPriorIsLexicographic(a: Window, b: Window)
    ensures IsPrior(a, b) <==> KeyCompare(a, b) < 0
  {
    LexicographicOfFive(Compare(a.frame.x, b.frame.x), Compare(a.frame.y, b.frame.y),
      Compare(a.frame.width, b.frame.width), Compare(b.frame.height, a.frame.height),
      Strcmp(Description(a), Description(b)));
  }

  lemma LexicographicOfFive(c0: int, c1: int, c2: int, c3: int, c4: int)
    ensures Lexicographic([c0, c1, c2, c3, c4]) ==
      if c0 != 0 then c0 else if c1 != 0 then c1 else if c2 != 0 then c2 else if c3 != 0 then c3 else c4
  {
    var cs := [c0, c1, c2, c3, c4];
    assert cs[1..] == [c1, c2, c3, c4] && cs[1..][1..] == [c2, c3, c4];
    assert cs[1..][1..][1..] == [c3, c4] && cs[1..][1..][1..][1..] == [c4];
    assert Lexicographic([c4]) == c4 by { assert [c4][1..] == []; }
    assert Lexicographic([c3, c4]) == if c3 != 0 then c3 else c4;
    assert Lexicographic([c2, c3, c4]) == if c2 != 0 then c2 else Lexicographic([c3, c4]);
    assert Lexicographic([c1, c2, c3, c4]) == if c1 != 0 then c1 else Lexicographic([c2, c3, c4]);
  }

  /** isPrior is a strict order: irreflexive, asymmetric and transitive. */
  lemma IsPriorIsStrictOrder(a: Window, b: Window, c: Window)
    ensures !IsPrior(a, a)
    ensures IsPrior(a, b) ==> !IsPrior(b, a)
    ensures IsPrior(a, b) && IsPrior(b, c) ==> IsPrior(a, c)
  {
    var da, db, dc := Description(a), Description(b), Description(c);
    StrcmpReflexive(da);
    StrcmpAntisymmetric(da, db);
    if Strcmp(da, db) <= 0 && Strcmp(db, dc) <= 0 {
      StrcmpTransitive(da, db, dc);
    }
  }

  /** Not being prior chains, so being tied is an equivalence. */
  lemma IsPriorNegativelyTransitive(a: Window, b: Window, c: Window)
    requires !IsPrior(a, b) && !IsPrior(b, c)
    ensures !IsPrior(a, c)
  {
    var da, db, dc := Description(a), Description(b), Description(c);
    StrcmpAntisymmetric(da, db);
    StrcmpAntisymmetric(db, dc);
    StrcmpAntisymmetric(da, dc);
    if Strcmp(dc, db) <= 0 && Strcmp(db, da) <= 0 {
      StrcmpTransitive(dc, db, da);
    }
  }

  /** isPrior is a strict weak order on any list of windows, which is what
      sorting by it needs. */
  lemma IsPriorStrictWeakOrder(ws: seq<Window>)
    ensures Sorting.StrictWeakOrderOn(IsPrior, ws)
  {
    forall a, b | a in ws && b in ws ensures IsPrior(a, b) ==> !IsPrior(b, a) {
      IsPriorIsStrictOrder(a, b, a);
    }
    forall a, b, c | a in ws && b in ws && c in ws && !IsPrior(a, b) && !IsPrior(b, c)
      ensures !IsPrior(a, c)
    {
      IsPriorNegativelyTransitive(a, b, c);
    }
  }

  /** For windows whose frames or labels differ, exactly one is prior to the
      other: the order is total on distinct windows. */
  lemma IsPriorTotal(a: Window, b: Window)
    requires NoNul(a.app) && NoNul(b.app)
    requires a.frame != b.frame || a.app != b.app || a.index != b.index
    ensures IsPrior(a, b) != IsPrior(b, a)
  {
    IsPriorIsStrictOrder(a, b, a);
    if a.frame == b.frame {
      DescriptionsDiffer(a, b);
      StrcmpAntisymmetric(Description(a), Description(b));
    }
  }

  // ---------------------------------------------------------------- screens

  function Center(r: Rect): Point
  {
    Point(r.x + r.width / 2.0, r.y + r.height / 2.0)
  }

  function SquaredDistance(p: Point, q: Point): real
  {
    (p.x - q.x) * (p.x - q.x) + (p.y - q.y) * (p.y - q.y)
  }

  /** The flipped frame lies in the screen's frame. */
  predicate HoldsFrame(s: Screen, frame: Rect, unit: real, menubarHeight: real)
  {
    Inside(Flipped(frame, s, unit, menubarHeight), s.frame)
  }

  /** The centre of the flipped frame lies in the screen's frame. */
  predicate HoldsCenter(s: Screen, frame: Rect, unit: real, menubarHeight: real)
  {
    PointIn(Center(Flipped(frame, s, unit, menubarHeight)), s.frame)
  }

  /** Squared distance from each screen's centre to the (unflipped) frame centre. */
  function Distances(frame: Rect, screens: seq<Screen>): (d: seq<real>)
    ensures |d| == |screens|
    ensures forall i :: 0 <= i < |d| ==> d[i] == SquaredDistance(Center(screens[i].frame), Center(frame))
  {
    seq(|screens|, i requires 0 <= i < |screens| => SquaredDistance(Center(screens[i].frame), Center(frame)))
  }

  /** `screen`: the position in the sorted screen list of the screen a window
      frame belongs to. The list must not be empty (the final search is
      force-unwrapped). */
  function AssignScreen(frame: Rect, screens: seq<Screen>, unit: real, menubarHeight: real): (k: nat)
    requires |screens| > 0
    ensures k < |screens|
    // first: the first screen that holds the flipped frame
    ensures (exists i :: 0 <= i < |screens| && HoldsFrame(screens[i], frame, unit, menubarHeight)) ==>
      && HoldsFrame(screens[k], frame, unit, menubarHeight)
      && forall j :: 0 <= j < k ==> !HoldsFrame(screens[j], frame, unit, menubarHeight)
    // then: the first screen that holds the flipped centre
    ensures (forall i :: 0 <= i < |screens| ==> !HoldsFrame(screens[i], frame, unit, menubarHeight)) &&
            (exists i :: 0 <= i < |screens| && HoldsCenter(screens[i], frame, unit, menubarHeight)) ==>
      && HoldsCenter(screens[k], frame, unit, menubarHeight)
      && forall j :: 0 <= j < k ==> !HoldsCenter(screens[j], frame, unit, menubarHeight)
    // otherwise: the first of the screens whose centre is nearest
    ensures (forall i :: 0 <= i < |screens| ==> !HoldsFrame(screens[i], frame, unit, menubarHeight)) &&
            (forall i :: 0 <= i < |screens| ==> !HoldsCenter(screens[i], frame, unit, menubarHeight)) ==>
      && (forall j :: 0 <= j < |screens| ==> Distances(frame, screens)[k] <= Distances(frame, screens)[j])
      && (forall j :: 0 <= j < k ==> Distances(frame, screens)[k] < Distances(frame, screens)[j])
  {
    match FirstIndex(screens, s => HoldsFrame(s, frame, unit, menubarHeight))
    case Some(i) => i
    case None =>
      match FirstIndex(screens, s => HoldsCenter(s, frame, unit, menubarHeight))
      case Some(i) => i
      case None => ArgMin(Distances(frame, screens))
  }

  /** `isFull`: the window is as tall as the frame of the screen it belongs to. */
  predicate IsFull(w: Window, screens: seq<Screen>, unit: real, menubarHeight: real)
    requires |screens| > 0
  {
    w.frame.height == screens[AssignScreen(w.frame, screens, unit, menubarHeight)].frame.height
  }

  // ---------------------------------------------------------------- fit

  /** The accessibility writes a command makes, in order. */
  datatype Action =
    | Focus(window: Window)
    | ToggleFullScreen
    | SetPosition(window: Window, origin: Point)
    | SetSize(window: Window, width: real, height: real)

  /** `fit(in:)`: toggle full-screen once when the target area being the
      whole screen frame disagrees with the window being full, then write the
      area's origin and size. The returned log is exactly those writes. */
  method Fit(w: Window, c: Container, screens: seq<Screen>, unit: real, menubarHeight: real)
    returns (log: seq<Action>)
    requires |screens| > 0 && Indexed(screens)
    ensures var s := screens[AssignScreen(w.frame, screens, unit, menubarHeight)];
      var area := Target(c, s, screens, unit, menubarHeight);
      && log == (if (area == s.frame) != IsFull(w, screens, unit, menubarHeight) then [ToggleFullScreen] else [])
                + [SetPosition(w, Point(area.x, area.y)), SetSize(w, area.width, area.height)]
      && (ToggleFullScreen in log <==> (area == s.frame) != IsFull(w, screens, unit, menubarHeight))
      && multiset(log)[ToggleFullScreen] <= 1
  {
    var screen := screens[AssignScreen(w.frame, screens, unit, menubarHeight)];
    var area := Area(c, screen, screens, unit, menubarHeight);
    var full := IsFull(w, screens, unit, menubarHeight);
    log := [];
    if (area != screen.frame && full) || (area == screen.frame && !full) {
      log := log + [ToggleFullScreen];
    }
    log := log + [SetPosition(w, Point(area.x, area.y)), SetSize(w, area.width, area.height)];
  }

  /** With a menu bar, a non-moving layout never fills the whole screen frame,
      so `fit` toggles exactly when the window is full: it can leave
      full-screen but never enter it. */
  lemma FitNeverEntersFullScreen(w: Window, c: Container, screens: seq<Screen>, unit: real, menubarHeight: real)
    requires |screens| > 0 && !Moves(c) && menubarHeight > 0.0
    requires var s := screens[AssignScreen(w.frame, screens, unit, menubarHeight)];
      s.frame.width >= 0.0 && s.frame.height >= menubarHeight
    ensures var s := screens[AssignScreen(w.frame, screens, unit, menubarHeight)];
      var area := Target(c, s, screens, unit, menubarHeight);
      area != s.frame && ((area == s.frame) != IsFull(w, screens, unit, menubarHeight) <==> IsFull(w, screens, unit, menubarHeight))
  {
    var s := screens[AssignScreen(w.frame, screens, unit, menubarHeight)];
    AreaBelowMenuBar(c, s, screens, unit, menubarHeight);
  }
}

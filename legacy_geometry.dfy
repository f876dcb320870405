/** The older `Container.area(in:)` of logic.swift. It has three extra row
    layouts `.h`, `.m`, `.l`, flips the frame and removes the menu bar before
    any split, and sends `.next` / `.back` to grid cell `.five` of the adjacent
    screen where the newer code uses `.middle`. */
module LegacyGeometry {
  import opened Geometry

  /** The older layout cases, in declaration order. */
  datatype LegacyContainer =
    | One | Two | Three | Four | Five | Six | Seven | Eight | Nine | Zero
    | H | M | L
    | Left | Right | Up | Down
    | Next | Back
    | Top | Bottom
    | Primary | Secondary

  function LegacyRawValue(c: LegacyContainer): nat
  {
    match c
    case One => 0       case Two => 1        case Three => 2
    case Four => 3      case Five => 4       case Six => 5
    case Seven => 6     case Eight => 7      case Nine => 8
    case Zero => 9      case H => 10         case M => 11      case L => 12
    case Left => 13     case Right => 14     case Up => 15     case Down => 16
    case Next => 17     case Back => 18
    case Top => 19      case Bottom => 20
    case Primary => 21  case Secondary => 22
  }

  predicate IsRow(c: LegacyContainer)
  {
    c.H? || c.M? || c.L?
  }

  predicate LegacyMoves(c: LegacyContainer)
  {
    c.Next? || c.Back?
  }

  /** The newer case with the same name; the rows have none. */
  function ToNew(c: LegacyContainer): Container
    requires !IsRow(c)
  {
    match c
    case One => Container.One      case Two => Container.Two      case Three => Container.Three
    case Four => Container.Four    case Five => Container.Five    case Six => Container.Six
    case Seven => Container.Seven  case Eight => Container.Eight  case Nine => Container.Nine
    case Zero => Container.Zero
    case Left => Container.Left    case Right => Container.Right
    case Up => Container.Up        case Down => Container.Down
    case Next => Container.Next    case Back => Container.Back
    case Top => Container.Top      case Bottom => Container.Bottom
    case Primary => Container.Primary  case Secondary => Container.Secondary
  }

  /** The raw values of the shared grid cells are the same in both enums. */
  lemma GridRawValuesAgree(c: LegacyContainer)
    requires LegacyRawValue(c) < 9
    ensures !IsRow(c) && RawValue(ToNew(c)) == LegacyRawValue(c)
  {
  }

  /** Row k (0 for `.h`, 1 for `.m`, 2 for `.l`) of u: full width, a third of
      the height. */
  function Row(k: nat, u: Rect): Rect
  {
    Rect(u.x, u.y + k as real * (u.height / 3.0), u.width, u.height / 3.0)
  }

  function RowNumber(c: LegacyContainer): nat
  {
    if c.H? then 0 else if c.M? then 1 else 2
  }

  /** What the older `area(in:)` returns: rows give their third of the usable
      area, `.next` / `.back` give cell `.five` of the adjacent screen, and
      every other case gives exactly the rectangle the newer code gives for
      the case of the same name. */
  function LegacyTarget(c: LegacyContainer, screen: Screen, screens: seq<Screen>, unit: real, menubarHeight: real): Rect
    requires LegacyMoves(c) ==> screen.index < |screens|
  {
    if IsRow(c) then Row(RowNumber(c), UsableArea(screen.frame, unit, menubarHeight))
    else if LegacyMoves(c) then
      Cell(4, UsableArea(screens[Adjacent(ToNew(c), screen.index, |screens|)].frame, unit, menubarHeight))
    else Target(ToNew(c), screen, screens, unit, menubarHeight)
  }

  /** The older `area(in:)`: flip the frame and remove the menu bar first,
      then send `.next` / `.back` to `.five` of the adjacent screen or split
      the usable area. */
  method LegacyArea(c: LegacyContainer, screen: Screen, screens: seq<Screen>, unit: real, menubarHeight: real)
    returns (r: Rect)
    requires LegacyMoves(c) ==> screen.index < |screens|
    ensures r == LegacyTarget(c, screen, screens, unit, menubarHeight)
    decreases if LegacyMoves(c) then 1 else 0
  {
    var area := screen.frame;
    area := area.(y := -(area.height + area.y) + unit + menubarHeight);
    area := area.(height := area.height - menubarHeight);
    assert area == UsableArea(screen.frame, unit, menubarHeight);
    if LegacyMoves(c) {
      var index := if c.Next? then NextIndex(screen.index, |screens|)
                   else PreviousIndex(screen.index, |screens|);
      r := LegacyArea(LegacyContainer.Five, screens[index], screens, unit, menubarHeight);
      assert r == Cell(4, UsableArea(screens[index].frame, unit, menubarHeight));
    } else {
      r := Split(c, area);
    }
  }

  /** The switch of the older `area(in:)` on the usable area. The rows take
      a third of the height at their offset; every case the newer switch also
      has is split as the newer switch splits it. */
  method Split(c: LegacyContainer, usable: Rect) returns (r: Rect)
    requires !LegacyMoves(c)
    ensures IsRow(c) ==> r == Row(RowNumber(c), usable)
    ensures !IsRow(c) ==> r == Layout(ToNew(c), usable)
  {
    var position := Point(usable.x, usable.y);
    match c {
      case Next | Back =>
        assert false;
      case H | M | L =>
        var area := usable.(height := usable.height / 3.0);
        var row := if c.H? then 0 else if c.M? then 1 else 2;
        r := area.(y := area.y + row as real * area.height);
      case Left | Right | Up | Down =>
        r := SplitHalf(ToNew(c), position, usable.width, usable.height);
      case Primary | Secondary | Top | Bottom =>
        r := SplitThirds(ToNew(c), position, usable.width, usable.height);
      case One | Two | Three | Four | Five | Six | Seven | Eight | Nine =>
        GridRawValuesAgree(c);
        r := SplitCell(ToNew(c), position, usable.width, usable.height);
      case Zero =>
        r := usable;
    }
  }

  /** The three rows stack without gap or overlap and cover the usable area. */
  lemma RowsTile(u: Rect)
    ensures Row(0, u).y == u.y
    ensures Row(1, u).y == Row(0, u).y + Row(0, u).height
    ensures Row(2, u).y == Row(1, u).y + Row(1, u).height
    ensures Row(2, u).y + Row(2, u).height == u.y + u.height
    ensures forall k :: 0 <= k < 3 ==> Row(k, u).x == u.x && Row(k, u).width == u.width
  {
  }

  /** A point of the usable area lies in exactly one row. */
  lemma {:induction false} RowsPartition(u: Rect, p: Point)
    requires u.height > 0.0
    ensures PointIn(p, u) <==> exists k: nat :: k < 3 && PointIn(p, Row(k, u))
    ensures forall k1: nat, k2: nat :: k1 < 3 && k2 < 3 && PointIn(p, Row(k1, u)) && PointIn(p, Row(k2, u)) ==> k1 == k2
  {
    var t := u.height / 3.0;
    assert Row(0, u) == Rect(u.x, u.y, u.width, t);
    assert Row(1, u) == Rect(u.x, u.y + t, u.width, t);
    assert Row(2, u) == Rect(u.x, u.y + 2.0 * t, u.width, t);
    if PointIn(p, u) {
      var k: nat := if p.y < u.y + t then 0 else if p.y < u.y + 2.0 * t then 1 else 2;
      assert PointIn(p, Row(k, u));
    }
    forall k: nat | k < 3 && PointIn(p, Row(k, u)) ensures PointIn(p, u) {
      assert k == 0 || k == 1 || k == 2;
    }
    forall k1: nat, k2: nat | k1 < 3 && k2 < 3 && PointIn(p, Row(k1, u)) && PointIn(p, Row(k2, u))
      ensures k1 == k2
    {
      assert k1 == 0 || k1 == 1 || k1 == 2;
      assert k2 == 0 || k2 == 1 || k2 == 2;
    }
  }

  /** The two iterations send a moved window to different places: the older
      to cell `.five`, a third of each side, the newer to `.middle`, a square
      of the shorter side. On a square usable area of positive side they differ. */
  lemma MovedTargetsDiffer(u: Rect)
    requires u.width == u.height && u.width > 0.0
    ensures Cell(4, u) != Layout(Container.Middle, u)
    ensures Cell(4, u).width == u.width / 3.0 && Layout(Container.Middle, u).width == u.width
  {
  }
}

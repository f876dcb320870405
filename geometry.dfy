/** The layout geometry of screen.swift: the rectangle a window is fitted into
    for every Container case, the Cocoa-to-accessibility y-flip, and the cyclic
    screen index helpers. Coordinates are reals; a frame is origin plus size. */
module Geometry {

  /** A CGPoint. */
  datatype Point = Point(x: real, y: real)

  /** A CGRect as origin (x, y) plus size (width, height). */
  datatype Rect = Rect(x: real, y: real, width: real, height: real)

  /** A display as the sorted screen list holds it: its index in that list and
      its Cocoa frame (origin at the bottom left of the primary display). */
  datatype Screen = Screen(index: nat, frame: Rect)

  /** The screens form the sorted list: each one's index is its position. */
  predicate Indexed(screens: seq<Screen>)
  {
    forall i :: 0 <= i < |screens| ==> screens[i].index == i
  }

  /** The layout cases, in declaration order (the order fixes the Int raw value). */
  datatype Container =
    | One | Two | Three | Four | Five | Six | Seven | Eight | Nine | Zero
    | Middle
    | Left | Right | Up | Down
    | Next | Back
    | Top | Bottom
    | Primary | Secondary

  function RawValue(c: Container): nat
  {
    match c
    case One => 0       case Two => 1        case Three => 2
    case Four => 3      case Five => 4       case Six => 5
    case Seven => 6     case Eight => 7      case Nine => 8
    case Zero => 9      case Middle => 10
    case Left => 11     case Right => 12     case Up => 13     case Down => 14
    case Next => 15     case Back => 16
    case Top => 17      case Bottom => 18
    case Primary => 19  case Secondary => 20
  }

  /** The nine grid cells `.one` ... `.nine`. */
  predicate IsCell(c: Container)
  {
    RawValue(c) < 9
  }

  /** `.next` and `.back` move the window to the adjacent screen. */
  predicate Moves(c: Container)
  {
    c == Next || c == Back
  }

  function Min(a: real, b: real): real
  {
    if a <= b then a else b
  }

  /** `nextIndex` of a screen: the successor index, wrapping the last to 0. */
  function NextIndex(index: nat, count: int): nat
  {
    if index < count - 1 then index + 1 else 0
  }

  /** `previousIndex` of a screen: the predecessor index, wrapping 0 to the last. */
  function PreviousIndex(index: nat, count: int): int
  {
    if 0 < index then index - 1 else count - 1
  }

  lemma IndexHelpersInRange(index: nat, count: nat)
    requires index < count
    ensures NextIndex(index, count) < count
    ensures 0 <= PreviousIndex(index, count) < count
    ensures NextIndex(index, count) == (index + 1) % count
    ensures PreviousIndex(index, count) == (index - 1) % count
    ensures PreviousIndex(NextIndex(index, count), count) == index
    ensures NextIndex(PreviousIndex(index, count), count) == index
  {
  }

  /** `Screen.position`: the frame origin with y flipped into the accessibility
      convention (origin at the top left of the primary display, below the menu
      bar). `unit` is the height of the primary display. */
  function Position(frame: Rect, unit: real, menubarHeight: real): (p: Point)
    ensures p.x == frame.x
    ensures p.y + frame.y + frame.height == unit + menubarHeight
  {
    Point(frame.x, -(frame.height + frame.y) + unit + menubarHeight)
  }

  /** `CGRect.flipped(in:)`: the rectangle shifted down by the screen's flipped y. */
  function Flipped(r: Rect, screen: Screen, unit: real, menubarHeight: real): (f: Rect)
    ensures f.x == r.x && f.width == r.width && f.height == r.height
    ensures f.y - r.y == Position(screen.frame, unit, menubarHeight).y
  {
    r.(y := r.y + Position(screen.frame, unit, menubarHeight).y)
  }

  /** The usable area of a screen: flipped origin, height without the menu bar. */
  function UsableArea(frame: Rect, unit: real, menubarHeight: real): Rect
  {
    var p := Position(frame, unit, menubarHeight);
    Rect(p.x, p.y, frame.width, frame.height - menubarHeight)
  }

  /** Grid cell r (0..8) of u: column r / 3, row r % 3, a third of each side. */
  function Cell(r: nat, u: Rect): Rect
    requires r < 9
  {
    Rect(u.x + (r / 3) as real * (u.width / 3.0), u.y + (r % 3) as real * (u.height / 3.0),
         u.width / 3.0, u.height / 3.0)
  }

  /** The rectangle each non-moving layout takes within the usable area u; the
      reference definition the step-by-step Area is proved against. */
  function Layout(c: Container, u: Rect): Rect
    requires !Moves(c)
  {
    var w, h := u.width, u.height;
    match c
    case Left => Rect(u.x, u.y, w / 2.0, h)
    case Right => Rect(u.x + w / 2.0, u.y, w / 2.0, h)
    case Up => Rect(u.x, u.y, w, h / 2.0)
    case Down => Rect(u.x, u.y + h / 2.0, w, h / 2.0)
    case Primary => Rect(u.x, u.y, 2.0 * (w / 3.0), h)
    case Secondary => Rect(u.x + 2.0 * (w / 3.0), u.y, w / 3.0, h)
    case Top => Rect(u.x, u.y, w, 2.0 * (h / 3.0))
    case Bottom => Rect(u.x, u.y + 2.0 * (h / 3.0), w, h / 3.0)
    case Middle =>
      var side := Min(w, h);
      Rect(u.x + (w - side) / 2.0, u.y + (h - side) / 2.0, side, side)
    case Zero => u
    case One | Two | Three | Four | Five | Six | Seven | Eight | Nine => Cell(RawValue(c), u)
    case Next | Back => assert false; u
  }

  /** The index of the screen a `.next` / `.back` layout moves to. */
  function Adjacent(c: Container, index: nat, count: int): int
  {
    if c == Next then NextIndex(index, count) else PreviousIndex(index, count)
  }

  /** What `Container.area(in:)` returns: a moving layout yields the `.middle`
      area of the adjacent screen, every other one its layout in the usable area. */
  function Target(c: Container, screen: Screen, screens: seq<Screen>, unit: real, menubarHeight: real): Rect
    requires Moves(c) ==> screen.index < |screens|
  {
    if Moves(c) then
      Layout(Middle, UsableArea(screens[Adjacent(c, screen.index, |screens|)].frame, unit, menubarHeight))
    else
      Layout(c, UsableArea(screen.frame, unit, menubarHeight))
  }

  /** `Container.area(in:)`: flip the origin and take the menu bar off the
      height, then either move to the `.middle` area of the adjacent screen or
      switch on the layout. The side effects of the moving branch (fitting the
      window into `.five`, leaving full-screen on the destination) are not
      part of this model. */
  method Area(c: Container, screen: Screen, screens: seq<Screen>, unit: real, menubarHeight: real)
    returns (r: Rect)
    requires Moves(c) ==> screen.index < |screens|
    ensures r == Target(c, screen, screens, unit, menubarHeight)
    decreases if Moves(c) then 1 else 0
  {
    var position := Position(screen.frame, unit, menubarHeight);
    var width := screen.frame.width;
    var height := screen.frame.height;

    height := height - menubarHeight;
    assert UsableArea(screen.frame, unit, menubarHeight) == Rect(position.x, position.y, width, height);
    if Moves(c) {
      var index := if c == Next then NextIndex(screen.index, |screens|)
                   else PreviousIndex(screen.index, |screens|);
      r := Area(Middle, screens[index], screens, unit, menubarHeight);
    } else {
      r := Split(c, position, width, height);
    }
  }

  /** The switch of `Container.area(in:)` on a non-moving layout, updating
      position, width and height step by step from the usable area; each group
      of cases is one of the methods below. */
  method Split(c: Container, position: Point, width: real, height: real) returns (r: Rect)
    requires !Moves(c)
    ensures r == Layout(c, Rect(position.x, position.y, width, height))
  {
    match c {
      case Next | Back =>
        assert false;
      case Left | Right | Up | Down =>
        r := SplitHalf(c, position, width, height);
      case Primary | Secondary | Top | Bottom =>
        r := SplitThirds(c, position, width, height);
      case Middle =>
        r := SplitSquare(position, width, height);
      case One | Two | Three | Four | Five | Six | Seven | Eight | Nine =>
        r := SplitCell(c, position, width, height);
      case Zero =>
        r := Rect(position.x, position.y, width, height);
    }
  }

  /** `.left`, `.right`, `.up`, `.down`: halve one side, and move the second
      half by it. */
  method SplitHalf(c: Container, position: Point, width: real, height: real) returns (r: Rect)
    requires c == Left || c == Right || c == Up || c == Down
    ensures r == Layout(c, Rect(position.x, position.y, width, height))
  {
    var position, width, height := position, width, height;
    if c == Left || c == Right {
      width := width / 2.0;
      if c == Right { position := position.(x := position.x + width); }
    } else {
      height := height / 2.0;
      if c == Down { position := position.(y := position.y + height); }
    }
    r := Rect(position.x, position.y, width, height);
  }

  /** `.primary`, `.secondary`, `.top`, `.bottom`: a third of one side, the
      main part twice that. */
  method SplitThirds(c: Container, position: Point, width: real, height: real) returns (r: Rect)
    requires c == Primary || c == Secondary || c == Top || c == Bottom
    ensures r == Layout(c, Rect(position.x, position.y, width, height))
  {
    var position, width, height := position, width, height;
    if c == Primary || c == Secondary {
      width := width / 3.0;
      var main := width * 2.0;
      if c == Primary { width := main; } else { position := position.(x := position.x + main); }
    } else {
      height := height / 3.0;
      var main := height * 2.0;
      if c == Top { height := main; } else { position := position.(y := position.y + main); }
    }
    r := Rect(position.x, position.y, width, height);
  }

  /** `.middle`: the square of the shorter side, centred along the longer. */
  method SplitSquare(position: Point, width: real, height: real) returns (r: Rect)
    ensures r == Layout(Middle, Rect(position.x, position.y, width, height))
  {
    var position, width, height := position, width, height;
    var portrait := height > width;
    var landscape := height < width;
    var side := if portrait then width else height;
    position := position.(x := position.x + if portrait then 0.0 else (width - side) / 2.0);
    position := position.(y := position.y + if landscape then 0.0 else (height - side) / 2.0);
    height := side;
    width := side;
    r := Rect(position.x, position.y, width, height);
  }

  /** `.one` ... `.nine`: a third of each side, at column raw value / 3 and
      row raw value % 3. */
  method SplitCell(c: Container, position: Point, width: real, height: real) returns (r: Rect)
    requires IsCell(c)
    ensures r == Layout(c, Rect(position.x, position.y, width, height))
  {
    ghost var u := Rect(position.x, position.y, width, height);
    var position, width, height := position, width, height;
    width := width / 3.0;
    height := height / 3.0;
    position := position.(x := position.x + (RawValue(c) / 3) as real * width);
    position := position.(y := position.y + (RawValue(c) % 3) as real * height);
    r := Rect(position.x, position.y, width, height);
    assert r == Cell(RawValue(c), u);
  }

  /** r lies within u. */
  predicate Inside(r: Rect, u: Rect)
  {
    && u.x <= r.x && r.x + r.width <= u.x + u.width
    && u.y <= r.y && r.y + r.height <= u.y + u.height
  }

  /** a and b, side by side, cover u exactly: same rows, a from the left edge,
      b starting where a ends, widths adding up to u's width. */
  predicate TilesHorizontally(u: Rect, a: Rect, b: Rect)
  {
    && a.y == u.y && b.y == u.y && a.height == u.height && b.height == u.height
    && a.x == u.x && b.x == a.x + a.width && a.width + b.width == u.width
  }

  /** a above b (in the flipped convention), covering u exactly. */
  predicate TilesVertically(u: Rect, a: Rect, b: Rect)
  {
    && a.x == u.x && b.x == u.x && a.width == u.width && b.width == u.width
    && a.y == u.y && b.y == a.y + a.height && a.height + b.height == u.height
  }

  /** p lies in r, counting the left and top edges but not the right and bottom. */
  predicate PointIn(p: Point, r: Rect)
  {
    r.x <= p.x < r.x + r.width && r.y <= p.y < r.y + r.height
  }

  /** `.zero` (the default branch) is the usable area itself: the frame's x, the
      flipped y and the height without the menu bar. */
  lemma ZeroIsUsableArea(screen: Screen, screens: seq<Screen>, unit: real, menubarHeight: real)
    ensures var r := Target(Zero, screen, screens, unit, menubarHeight);
      && r.x == screen.frame.x
      && r.y == -(screen.frame.height + screen.frame.y) + unit + menubarHeight
      && r.width == screen.frame.width
      && r.height == screen.frame.height - menubarHeight
  {
  }

  /** Halves: each half has half the extent, `.right` / `.down` are offset by it,
      and each pair tiles the usable area with no gap. */
  lemma HalvesTile(u: Rect)
    ensures Layout(Left, u).width == u.width / 2.0 && Layout(Right, u).width == u.width / 2.0
    ensures Layout(Up, u).height == u.height / 2.0 && Layout(Down, u).height == u.height / 2.0
    ensures TilesHorizontally(u, Layout(Left, u), Layout(Right, u))
    ensures TilesVertically(u, Layout(Up, u), Layout(Down, u))
  {
  }

  /** Thirds: the primary share is twice the secondary one, and together they tile. */
  lemma ThirdsTile(u: Rect)
    ensures Layout(Primary, u).width == 2.0 * Layout(Secondary, u).width
    ensures Layout(Top, u).height == 2.0 * Layout(Bottom, u).height
    ensures TilesHorizontally(u, Layout(Primary, u), Layout(Secondary, u))
    ensures TilesVertically(u, Layout(Top, u), Layout(Bottom, u))
  {
  }

  /** Middle: a square whose side is the shorter extent, with equal margins on
      both sides of each axis, and no offset at all when the area is square. */
  lemma MiddleIsCenteredSquare(u: Rect)
    ensures var m := Layout(Middle, u);
      && m.width == m.height == Min(u.width, u.height)
      && m.x - u.x == (u.x + u.width) - (m.x + m.width)
      && m.y - u.y == (u.y + u.height) - (m.y + m.height)
      && (u.width == u.height ==> m.x == u.x && m.y == u.y)
      && (u.width <= u.height ==> m.x == u.x)
      && (u.height <= u.width ==> m.y == u.y)
  {
  }

  /** The grid is column-major: the cell after r (within a column) sits directly
      below it, the cell three further sits directly to its right, and cell 0 is
      at the origin; every cell is a third of the area in each direction. */
  lemma GridIsColumnMajor(u: Rect, r: nat)
    requires r < 9
    ensures Cell(0, u).x == u.x && Cell(0, u).y == u.y
    ensures Cell(r, u).width == u.width / 3.0 && Cell(r, u).height == u.height / 3.0
    ensures r % 3 < 2 ==> Cell(r + 1, u).x == Cell(r, u).x
                          && Cell(r + 1, u).y == Cell(r, u).y + Cell(r, u).height
    ensures r < 6 ==> Cell(r + 3, u).y == Cell(r, u).y
                      && Cell(r + 3, u).x == Cell(r, u).x + Cell(r, u).width
  {
    assert (r + 1) / 3 == r / 3 ==> ((r + 1) / 3) as real == (r / 3) as real;
    if r < 6 {
      assert (r + 3) / 3 == r / 3 + 1 && (r + 3) % 3 == r % 3;
    }
  }

  /** The column (0, 1 or 2) whose x range holds p. */
  function ColumnOf(p: Point, u: Rect): nat
  {
    if p.x < u.x + u.width / 3.0 then 0 else if p.x < u.x + 2.0 * (u.width / 3.0) then 1 else 2
  }

  /** The row (0, 1 or 2) whose y range holds p. */
  function RowOf(p: Point, u: Rect): nat
  {
    if p.y < u.y + u.height / 3.0 then 0 else if p.y < u.y + 2.0 * (u.height / 3.0) then 1 else 2
  }

  lemma CellPlacesPoint(p: Point, u: Rect, r: nat)
    requires r < 9
    ensures PointIn(p, Cell(r, u)) <==>
      && r / 3 == ColumnOf(p, u) && r % 3 == RowOf(p, u)
      && u.x <= p.x < u.x + u.width && u.y <= p.y < u.y + u.height
  {
    var c := Cell(r, u);
    var w3, h3 := u.width / 3.0, u.height / 3.0;
    var column, row := r / 3, r % 3;
    assert c.x == u.x + column as real * w3 && c.y == u.y + row as real * h3;
    if column == 0 { assert c.x == u.x; }
    else if column == 1 { assert c.x == u.x + w3; }
    else { assert column == 2; assert c.x == u.x + 2.0 * w3; }
    if row == 0 { assert c.y == u.y; }
    else if row == 1 { assert c.y == u.y + h3; }
    else { assert row == 2; assert c.y == u.y + 2.0 * h3; }
  }

  /** The nine cells partition the usable area: a point lies in u iff it lies in
      some cell, and it never lies in two. Their areas add up to u's. */
  lemma GridPartitionsUsableArea(u: Rect, p: Point)
    ensures PointIn(p, u) <==> exists r: nat :: r < 9 && PointIn(p, Cell(r, u))
    ensures forall r1: nat, r2: nat :: r1 < 9 && r2 < 9 && PointIn(p, Cell(r1, u)) && PointIn(p, Cell(r2, u)) ==> r1 == r2
    ensures 9.0 * (Cell(0, u).width * Cell(0, u).height) == u.width * u.height
  {
    if PointIn(p, u) {
      var r := 3 * ColumnOf(p, u) + RowOf(p, u);
      CellPlacesPoint(p, u, r);
    }
    forall r: nat | r < 9 && PointIn(p, Cell(r, u)) ensures PointIn(p, u) {
      CellPlacesPoint(p, u, r);
    }
    forall r1: nat, r2: nat | r1 < 9 && r2 < 9 && PointIn(p, Cell(r1, u)) && PointIn(p, Cell(r2, u))
      ensures r1 == r2
    {
      CellPlacesPoint(p, u, r1);
      CellPlacesPoint(p, u, r2);
    }
  }

  /** Every non-moving layout stays inside a usable area of non-negative size. */
  lemma LayoutInside(c: Container, u: Rect)
    requires !Moves(c)
    requires u.width >= 0.0 && u.height >= 0.0
    ensures Inside(Layout(c, u), u)
    ensures Layout(c, u).width >= 0.0 && Layout(c, u).height >= 0.0
  {
    if IsCell(c) {
      CellInside(RawValue(c), u);
    }
  }

  /** Each grid cell lies within u. */
  lemma CellInside(r: nat, u: Rect)
    requires r < 9
    requires u.width >= 0.0 && u.height >= 0.0
    ensures Inside(Cell(r, u), u)
  {
    var c := Cell(r, u);
    var column, row := r / 3, r % 3;
    var w3, h3 := u.width / 3.0, u.height / 3.0;
    assert c.x == u.x + column as real * w3 && c.y == u.y + row as real * h3;
    if column == 0 { assert c.x == u.x; }
    else if column == 1 { assert c.x == u.x + w3; }
    else { assert column == 2; assert c.x == u.x + 2.0 * w3; }
    if row == 0 { assert c.y == u.y; }
    else if row == 1 { assert c.y == u.y + h3; }
    else { assert row == 2; assert c.y == u.y + 2.0 * h3; }
  }

  /** Area never reaches into the menu bar: for a non-moving layout on a screen at
      least as tall as the menu bar, the result is inside the usable area and at
      most the frame height minus the menu-bar height tall. */
  lemma AreaBelowMenuBar(c: Container, screen: Screen, screens: seq<Screen>, unit: real, menubarHeight: real)
    requires !Moves(c)
    requires screen.frame.width >= 0.0 && screen.frame.height >= menubarHeight
    ensures Inside(Target(c, screen, screens, unit, menubarHeight), UsableArea(screen.frame, unit, menubarHeight))
    ensures Target(c, screen, screens, unit, menubarHeight).height <= screen.frame.height - menubarHeight
  {
    LayoutInside(c, UsableArea(screen.frame, unit, menubarHeight));
  }
}

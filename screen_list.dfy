/** The global `screens` list of screen.swift (and, identically, of
    logic.swift): the displays sorted by the origin of their frames, x first
    and then y, and numbered by their position in that order. */
module ScreenList {
  import opened Geometry
  import Sorting

  /** The sort predicate: the smaller x, and on equal x the smaller y. */
  predicate OriginPrior(a: Rect, b: Rect)
  {
    a.x < b.x || (a.x == b.x && a.y < b.y)
  }

  lemma OriginPriorStrictWeakOrder(frames: seq<Rect>)
    ensures Sorting.StrictWeakOrderOn(OriginPrior, frames)
  {
    forall a, b, c | a in frames && b in frames && c in frames && !OriginPrior(a, b) && !OriginPrior(b, c)
      ensures !OriginPrior(a, c)
    {
    }
  }

  function Frames(screens: seq<Screen>): (frames: seq<Rect>)
    ensures |frames| == |screens|
    ensures forall i :: 0 <= i < |screens| ==> frames[i] == screens[i].frame
  {
    seq(|screens|, i requires 0 <= i < |screens| => screens[i].frame)
  }

  /** `screens`: the display frames, sorted and enumerated. The result holds
      every display exactly once, is ordered by origin, and each screen's index
      is its position. */
  function Screens(displays: seq<Rect>): (screens: seq<Screen>)
    ensures |screens| == |displays|
    ensures Indexed(screens)
    ensures multiset(Frames(screens)) == multiset(displays)
    ensures Sorting.SortedBy(Frames(screens), OriginPrior)
  {
    OriginPriorStrictWeakOrder(displays);
    Sorting.SortSorted(displays, OriginPrior);
    var sorted := Sorting.Sort(displays, OriginPrior);
    var screens := seq(|sorted|, i requires 0 <= i < |sorted| => Screen(i, sorted[i]));
    assert Frames(screens) == sorted;
    screens
  }

  /** The order puts the leftmost screens first, and, among screens with one
      x, the lowest first. */
  lemma ScreensOrderedByOrigin(displays: seq<Rect>, i: nat, j: nat)
    requires i < j < |displays|
    ensures var s := Screens(displays);
      s[i].frame.x <= s[j].frame.x
      && (s[i].frame.x == s[j].frame.x ==> s[i].frame.y <= s[j].frame.y)
  {
    var s := Screens(displays);
    assert !OriginPrior(Frames(s)[j], Frames(s)[i]);
  }
}

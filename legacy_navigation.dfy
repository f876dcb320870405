/** The older navigation of logic.swift: screen cycling stops at the first
    screen with any window and focuses its first window without checking that
    focus took; window cycling picks the neighbour of the focused window
    directly; a window belongs to the screen holding its midpoint; and a
    screen's window list is its one full-screen window when it has one. */
module LegacyNavigation {
  import opened Geometry
  import opened Seqs
  import opened Windows
  import opened WindowList
  import opened Navigation
  import Sorting

  /** The oracle of a focus call that always succeeds. */
  function AcceptAll(): Window -> bool
  {
    (w: Window) => true
  }

  lemma LiveUnderAcceptAll(list: seq<Window>)
    ensures Live(list, AcceptAll()) <==> |list| > 0
  {
    if |list| > 0 {
      assert AcceptAll()(list[0]);
    }
  }

  /** The older `next()` (Forward) and `previous()` (Backward): step `count`
      times and stop at the first screen whose list is not empty, focusing its
      first window. The result is the newer cycle's result for a focus call
      that always succeeds. */
  method LegacyCycleScreens(lists: seq<seq<Window>>, start: nat, d: Direction)
    returns (r: nat, log: seq<Action>)
    requires start < |lists|
    ensures r == CycledScreen(lists, AcceptAll(), start, d)
    ensures log == if |lists[r]| > 0 then [Focus(lists[r][0])] else []
    ensures log == [] ==> r == start
  {
    var count := |lists|;
    var screen := start;
    log := [];
    for k := 1 to count + 1
      invariant screen == Iterate(start, k - 1, count, d)
      invariant forall j :: 1 <= j < k ==> !Live(lists[Iterate(start, j, count, d)], AcceptAll())
      invariant log == []
    {
      IndexHelpersInRange(screen, count);
      screen := Step(screen, count, d);
      assert screen == Iterate(start, k, count, d);
      LiveUnderAcceptAll(lists[screen]);
      if |lists[screen]| > 0 {
        log := [Focus(lists[screen][0])];
        FirstLiveStepIsLeast(lists, AcceptAll(), start, d, k);
        r := screen;
        return;
      }
    }
    IterateIsCyclic(start, count, count, d);
    assert FirstLiveStep(lists, AcceptAll(), start, d, 1).None?;
    r := screen;
    CycledScreenIsFirstLive(lists, AcceptAll(), start, d);
    LiveUnderAcceptAll(lists[r]);
  }

  /** The older `nextWindow()` / `previousWindow()`: the neighbour of the
      focused window, wrapping at the ends. */
  function LegacyCycledWindow(ws: seq<Window>, d: Direction): Option<Window>
  {
    match FirstIndex(ws, IsFocused)
    case None => None
    case Some(f) =>
      IndexHelpersInRange(f, |ws|);
      Some(ws[Step(f, |ws|, d)])
  }

  /** The older `nextWindow()` / `previousWindow()` as a step: with a focused
      window, pick its neighbour and ask to focus it once; without one, do
      nothing. The log is that single focus request. */
  method LegacyCycleWindows(ws: seq<Window>, d: Direction) returns (r: Option<Window>, log: seq<Action>)
    ensures r == LegacyCycledWindow(ws, d)
    ensures log == if r.Some? then [Focus(r.value)] else []
    ensures r.Some? <==> exists i :: 0 <= i < |ws| && IsFocused(ws[i])
  {
    var focus := FirstIndex(ws, IsFocused);
    if focus.None? {
      return None, [];
    }
    var f := focus.value;
    IndexHelpersInRange(f, |ws|);
    var window := ws[Step(f, |ws|, d)];
    log := [Focus(window)];
    r := Some(window);
  }

  /** The older window cycling is the newer one when every focus call
      succeeds: nothing without a focused window, the neighbour otherwise, and
      the focused window itself when it is alone. */
  lemma LegacyWindowIsNewWithFocusAlwaysTaken(ws: seq<Window>, d: Direction)
    ensures LegacyCycledWindow(ws, d) == CycledWindow(ws, AcceptAll(), d)
    ensures LegacyCycledWindow(ws, d).None? <==> forall i :: 0 <= i < |ws| ==> !IsFocused(ws[i])
    ensures |ws| == 1 && IsFocused(ws[0]) ==> LegacyCycledWindow(ws, d) == Some(ws[0])
  {
    var focus := FirstIndex(ws, IsFocused);
    if focus.Some? {
      var f := focus.value;
      CandidatesCoverTheList(f, |ws|, d);
      assert AcceptAll()(ws[Candidate(f, 1, |ws|, d)]);
      FirstAcceptedIsLeast(ws, AcceptAll(), f, d, 1);
    }
  }

  /** The older `previousWindow()` from the first of several windows picks the
      last one; the newer code as written starts with the second to last. */
  lemma LegacyPreviousVersusAsWritten(count: int)
    requires count >= 2
    ensures Step(0, count, Backward) == count - 1
    ensures PreviousCandidateAsWritten(0, 1, count) == count - 2
  {
    PreviousCandidatesAsWritten(0, count);
  }

  /** The older `screen`: the first screen whose frame holds the window's
      midpoint, otherwise the first of the screens whose centre is nearest.
      The midpoint is not flipped into the screen's convention. */
  function LegacyAssignScreen(frame: Rect, screens: seq<Screen>): (k: nat)
    requires |screens| > 0
    ensures k < |screens|
    ensures (exists i :: 0 <= i < |screens| && PointIn(Center(frame), screens[i].frame)) ==>
      && PointIn(Center(frame), screens[k].frame)
      && forall j :: 0 <= j < k ==> !PointIn(Center(frame), screens[j].frame)
    ensures (forall i :: 0 <= i < |screens| ==> !PointIn(Center(frame), screens[i].frame)) ==>
      && (forall j :: 0 <= j < |screens| ==> Distances(frame, screens)[k] <= Distances(frame, screens)[j])
      && (forall j :: 0 <= j < k ==> Distances(frame, screens)[k] < Distances(frame, screens)[j])
  {
    match FirstIndex(screens, (s: Screen) => PointIn(Center(frame), s.frame))
    case Some(i) => i
    case None => ArgMin(Distances(frame, screens))
  }

  /** When no screen holds the window in either convention, both iterations
      fall back to the same nearest screen. */
  lemma FallbacksAgree(frame: Rect, screens: seq<Screen>, unit: real, menubarHeight: real)
    requires |screens| > 0
    requires forall i :: 0 <= i < |screens| ==> !PointIn(Center(frame), screens[i].frame)
    requires forall i :: 0 <= i < |screens| ==> !HoldsFrame(screens[i], frame, unit, menubarHeight)
    requires forall i :: 0 <= i < |screens| ==> !HoldsCenter(screens[i], frame, unit, menubarHeight)
    ensures LegacyAssignScreen(frame, screens) == AssignScreen(frame, screens, unit, menubarHeight)
  {
    var a, b := LegacyAssignScreen(frame, screens), AssignScreen(frame, screens, unit, menubarHeight);
    var d := Distances(frame, screens);
    assert !(a < b) && !(b < a) by {
      assert d[a] <= d[b] && d[b] <= d[a];
    }
  }

  /** The older `isFull`, against the older screen assignment. */
  predicate LegacyIsFull(w: Window, screens: seq<Screen>)
    requires |screens| > 0
  {
    w.frame.height == screens[LegacyAssignScreen(w.frame, screens)].frame.height
  }

  /** The windows the older rule assigns to the screen with the given index. */
  function LegacyOnScreen(ws: seq<Window>, index: nat, screens: seq<Screen>): (r: seq<Window>)
    requires |screens| > 0
    ensures forall w :: w in r <==> w in ws && LegacyAssignScreen(w.frame, screens) == index
    ensures multiset(r) <= multiset(ws)
  {
    if ws == [] then []
    else
      assert ws == [ws[0]] + ws[1..];
      (if LegacyAssignScreen(ws[0].frame, screens) == index then [ws[0]] else [])
        + LegacyOnScreen(ws[1..], index, screens)
  }

  function LegacyKept(apps: seq<App>, screen: Option<Screen>, screens: seq<Screen>): seq<Window>
    requires screen.Some? ==> |screens| > 0
  {
    if screen.Some? then LegacyOnScreen(Flatten(apps), screen.value.index, screens) else Flatten(apps)
  }

  /** The older `getAllWindows(in:)`: no Finder rule; for a screen, its first
      full window alone when it has one; otherwise the windows sorted. */
  method LegacyGetAllWindows(apps: seq<App>, screen: Option<Screen>, screens: seq<Screen>)
    returns (windows: seq<Window>)
    requires screen.Some? ==> |screens| > 0
    ensures var kept := LegacyKept(apps, screen, screens);
      var full := if screen.Some? then FirstIndex(kept, (w: Window) requires |screens| > 0 => LegacyIsFull(w, screens)) else None;
      && (full.Some? ==> windows == [kept[full.value]] && LegacyIsFull(kept[full.value], screens))
      && (full.None? ==> multiset(windows) == multiset(kept) && Sorting.SortedBy(windows, IsPrior))
  {
    windows := Flatten(apps);
    if screen.Some? {
      windows := LegacyOnScreen(windows, screen.value.index, screens);
      var full := FirstIndex(windows, (w: Window) requires |screens| > 0 => LegacyIsFull(w, screens));
      if full.Some? {
        return [windows[full.value]];
      }
    }
    IsPriorStrictWeakOrder(windows);
    Sorting.SortSorted(windows, IsPrior);
    windows := Sorting.Sort(windows, IsPrior);
  }
}

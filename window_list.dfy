/** `getAllWindows(in:)` of screen.swift: the windows of the running
    applications, with Finder's desktop window dropped, kept to one screen when
    a screen is given, and sorted by the window order unless one of them is
    full-screen. The applications are a snapshot: each one's name and its
    window list as the accessibility API reported them. */
module WindowList {
  import opened Geometry
  import opened Seqs
  import opened CString
  import opened Windows
  import Sorting

  datatype App = App(name: seq<byte>, windows: seq<Window>)

  /** "Finder" in UTF-8. */
  const Finder: seq<byte> := [70, 105, 110, 100, 101, 114]

  /** Windows are numbered by their position in their application's list,
      starting at offset. */
  predicate EnumeratedFrom(ws: seq<Window>, offset: int)
  {
    forall i :: 0 <= i < |ws| ==> ws[i].index == i + offset
  }

  function WindowArea(w: Window): real
  {
    w.frame.width * w.frame.height
  }

  /** The first window of largest area. */
  function Largest(ws: seq<Window>): (k: nat)
    requires |ws| > 0
    ensures k < |ws|
    ensures forall j :: 0 <= j < |ws| ==> WindowArea(ws[j]) <= WindowArea(ws[k])
    ensures forall j :: 0 <= j < k ==> WindowArea(ws[j]) < WindowArea(ws[k])
  {
    var negated := seq(|ws|, i requires 0 <= i < |ws| => -WindowArea(ws[i]));
    assert forall j :: 0 <= j < |ws| ==> negated[j] == -WindowArea(ws[j]);
    ArgMin(negated)
  }

  /** The windows whose index is not k, in order. */
  function DropIndex(ws: seq<Window>, k: int): (r: seq<Window>)
    ensures forall w :: w in r <==> w in ws && w.index != k
    ensures multiset(r) <= multiset(ws)
  {
    if ws == [] then []
    else
      assert ws == [ws[0]] + ws[1..];
      (if ws[0].index != k then [ws[0]] else []) + DropIndex(ws[1..], k)
  }

  /** In a list numbered from offset, dropping index k removes exactly the
      window at position k - offset. */
  lemma {:induction false} DropIndexOfEnumerated(ws: seq<Window>, offset: int, k: int)
    requires EnumeratedFrom(ws, offset)
    requires 0 <= k - offset < |ws|
    ensures DropIndex(ws, k) == ws[..k - offset] + ws[k - offset + 1..]
    decreases |ws|
  {
    if k - offset == 0 {
      DropIndexOfFirst(ws, offset);
    } else {
      assert DropIndex(ws, k) == [ws[0]] + DropIndex(ws[1..], k);
      DropIndexOfEnumerated(ws[1..], offset + 1, k);
      DropAfterHead(ws, k - offset);
    }
  }

  lemma DropAfterHead(ws: seq<Window>, d: int)
    requires 0 < d < |ws|
    ensures [ws[0]] + (ws[1..][..d - 1] + ws[1..][d..]) == ws[..d] + ws[d + 1..]
  {
    assert ws[..d] == [ws[0]] + ws[1..][..d - 1];
    assert ws[d + 1..] == ws[1..][d..];
  }

  lemma DropIndexOfFirst(ws: seq<Window>, offset: int)
    requires EnumeratedFrom(ws, offset) && ws != []
    ensures DropIndex(ws, offset) == ws[1..]
  {
    assert DropIndex(ws, offset) == DropIndex(ws[1..], offset);
    DropIndexMisses(ws[1..], offset + 1, offset);
  }

  lemma {:induction false} DropIndexMisses(ws: seq<Window>, offset: int, k: int)
    requires EnumeratedFrom(ws, offset)
    requires k < offset
    ensures DropIndex(ws, k) == ws
    decreases |ws|
  {
    if ws != [] {
      DropIndexMisses(ws[1..], offset + 1, k);
      assert ws == [ws[0]] + ws[1..];
    }
  }

  /** The pruning step for one application: for Finder with at least one
      window, drop the window that has the index of its largest window. */
  function Pruned(app: App): App
  {
    if app.name == Finder && app.windows != [] then
      var biggest := app.windows[Largest(app.windows)];
      app.(windows := DropIndex(app.windows, biggest.index))
    else app
  }

  /** Finder loses exactly one window, one of largest area, and keeps the rest
      in order; every other application is unchanged. */
  lemma PrunedDropsOneLargest(app: App)
    requires EnumeratedFrom(app.windows, 0)
    ensures app.name == Finder && app.windows != [] ==>
      exists k :: 0 <= k < |app.windows|
        && (forall j :: 0 <= j < |app.windows| ==> WindowArea(app.windows[j]) <= WindowArea(app.windows[k]))
        && Pruned(app).windows == app.windows[..k] + app.windows[k + 1..]
    ensures app.name == Finder && app.windows != [] ==> |Pruned(app).windows| == |app.windows| - 1
    ensures app.name != Finder || app.windows == [] ==> Pruned(app) == app
  {
    if app.name == Finder && app.windows != [] {
      var ws := app.windows;
      var k := Largest(ws);
      assert ws[k].index == k;
      assert Pruned(app).windows == DropIndex(ws, k);
      DropIndexOfEnumerated(ws, 0, k);
      assert |ws[..k] + ws[k + 1..]| == |ws| - 1;
    }
  }

  function AllPruned(apps: seq<App>): (r: seq<App>)
    ensures |r| == |apps|
    ensures forall i :: 0 <= i < |apps| ==> r[i] == Pruned(apps[i])
  {
    seq(|apps|, i requires 0 <= i < |apps| => Pruned(apps[i]))
  }

  /** `flatMap { $0.windows }`. */
  function Flatten(apps: seq<App>): seq<Window>
  {
    if apps == [] then [] else apps[0].windows + Flatten(apps[1..])
  }

  lemma {:induction false} InFlatten(apps: seq<App>, w: Window)
    ensures w in Flatten(apps) <==> exists i :: 0 <= i < |apps| && w in apps[i].windows
  {
    if apps != [] {
      InFlatten(apps[1..], w);
      if w in Flatten(apps[1..]) {
        var i :| 0 <= i < |apps[1..]| && w in apps[1..][i].windows;
        assert w in apps[i + 1].windows;
      }
      forall i | 0 <= i < |apps| && w in apps[i].windows ensures w in Flatten(apps) {
        if i > 0 {
          assert w in apps[1..][i - 1].windows;
        }
      }
    }
  }

  /** The windows assigned to the screen with the given index, in order. */
  function OnScreen(ws: seq<Window>, index: nat, screens: seq<Screen>, unit: real, menubarHeight: real): (r: seq<Window>)
    requires |screens| > 0
    ensures forall w :: w in r <==> w in ws && AssignScreen(w.frame, screens, unit, menubarHeight) == index
    ensures multiset(r) <= multiset(ws)
  {
    if ws == [] then []
    else
      assert ws == [ws[0]] + ws[1..];
      (if AssignScreen(ws[0].frame, screens, unit, menubarHeight) == index then [ws[0]] else [])
        + OnScreen(ws[1..], index, screens, unit, menubarHeight)
  }

  /** The windows that survive the Finder rule and, when a screen is given, the
      screen filter, in their original order. */
  function Kept(apps: seq<App>, screen: Option<Screen>, screens: seq<Screen>, unit: real, menubarHeight: real): seq<Window>
    requires screen.Some? ==> |screens| > 0
  {
    var pool := Flatten(AllPruned(apps));
    if screen.Some? then OnScreen(pool, screen.value.index, screens, unit, menubarHeight) else pool
  }

  predicate AnyFull(ws: seq<Window>, screens: seq<Screen>, unit: real, menubarHeight: real)
    requires |screens| > 0
  {
    exists i :: 0 <= i < |ws| && IsFull(ws[i], screens, unit, menubarHeight)
  }

  /** `getAllWindows(in:)`: prune every application, flatten, keep the given
      screen's windows, return them as they are if one is full, and otherwise
      sort them by the window order. */
  method GetAllWindows(apps: seq<App>, screen: Option<Screen>, screens: seq<Screen>, unit: real, menubarHeight: real)
    returns (windows: seq<Window>)
    requires screen.Some? ==> |screens| > 0
    ensures var kept := Kept(apps, screen, screens, unit, menubarHeight);
      && multiset(windows) == multiset(kept)
      && (screen.Some? && AnyFull(kept, screens, unit, menubarHeight) ==> windows == kept)
      && (screen.None? || !AnyFull(kept, screens, unit, menubarHeight) ==> Sorting.SortedBy(windows, IsPrior))
  {
    var applications := apps;
    for i := 0 to |applications|
      invariant |applications| == |apps|
      invariant forall j :: 0 <= j < i ==> applications[j] == Pruned(apps[j])
      invariant forall j :: i <= j < |apps| ==> applications[j] == apps[j]
    {
      applications := applications[i := Pruned(applications[i])];
    }
    assert applications == AllPruned(apps);
    windows := Flatten(applications);
    if screen.Some? {
      windows := OnScreen(windows, screen.value.index, screens, unit, menubarHeight);
      var full := FirstIndex(windows, (w: Window) requires |screens| > 0 => IsFull(w, screens, unit, menubarHeight));
      if full.Some? {
        return;
      }
    }
    IsPriorStrictWeakOrder(windows);
    Sorting.SortSorted(windows, IsPrior);
    windows := Sorting.Sort(windows, IsPrior);
  }

  /** Every window returned belongs to a running application, and when a
      screen is given, to that screen. */
  lemma KeptWindowsBelong(apps: seq<App>, screen: Option<Screen>, screens: seq<Screen>, unit: real, menubarHeight: real, w: Window)
    requires screen.Some? ==> |screens| > 0
    requires w in Kept(apps, screen, screens, unit, menubarHeight)
    ensures exists i :: 0 <= i < |apps| && w in Pruned(apps[i]).windows
    ensures screen.Some? ==> AssignScreen(w.frame, screens, unit, menubarHeight) == screen.value.index
  {
    InFlatten(AllPruned(apps), w);
  }
}

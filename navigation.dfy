/** Screen and window cycling of screen.swift: `next` / `previous` walk the
    screens cyclically until focusing one of a screen's windows succeeds, and
    `nextWindow` / `previousWindow` walk a screen's windows cyclically from the
    focused one until focusing one succeeds.

    The OS side is a snapshot plus an oracle: `lists[i]` is what
    `getAllWindows(in:)` returns for screen i, and `accepts(w)` is whether `w`
    reads as focused after `w.focus()`. Every focus call is logged. */
module Navigation {
  import opened Geometry
  import opened Seqs
  import opened Windows

  datatype Direction = Forward | Backward

  // ---------------------------------------------------------------- Array.index

  function Abs(i: int): nat
  {
    if i < 0 then -i else i
  }

  /** `Array.index(_:)` as screen.swift writes it. For i >= 0 Swift's
      truncating `%` and Dafny's Euclidean `%` agree, since both operands are
      non-negative. */
  function ArrayIndex(i: int, count: int): (r: int)
    requires count > 0
    ensures 0 <= r < count
  {
    if i >= 0 then i % count else count - (Abs(i) % count) - 1
  }

  /** The wrap-around `Array.index` evidently means: i modulo count, taken in
      [0, count). */
  function WrapIndex(i: int, count: int): (r: int)
    requires count > 0
    ensures 0 <= r < count
  {
    i % count
  }

  /** For non-negative i the two agree; for negative i the code as written
      lands one position lower than it should. */
  lemma ArrayIndexIsOffByOne(i: int, count: int)
    requires count > 0
    ensures i >= 0 ==> ArrayIndex(i, count) == WrapIndex(i, count)
    ensures i < 0 ==> ArrayIndex(i, count) == WrapIndex(i - 1, count)
  {
    if i < 0 {
      var m, q := (-i) % count, (-i) / count;
      assert -i == q * count + m;
      if m == 0 {
        ModUnique(i - 1, count, -q - 1, count - 1);
      } else {
        ModUnique(i - 1, count, -q - 1, count - m - 1);
      }
    }
  }

  /** Euclidean division has one quotient and one remainder. */
  lemma ModUnique(a: int, n: int, q: int, r: int)
    requires n > 0 && 0 <= r < n && a == q * n + r
    ensures a % n == r
  {
    var t := q - a / n;
    assert t * n == a % n - r;
    assert t == 0;
  }

  /** `index(-1)` is the second to last position, not the last. */
  lemma ArrayIndexMinusOne(count: int)
    requires count >= 2
    ensures ArrayIndex(-1, count) == count - 2
    ensures WrapIndex(-1, count) == count - 1
  {
  }

  /** a modulo n for a in [-n, 2n), without nonlinear reasoning. */
  lemma ModInRange(a: int, n: int)
    requires n > 0 && -n <= a < 2 * n
    ensures a % n == if a < 0 then a + n else if a < n then a else a - n
  {
  }

  // ---------------------------------------------------------------- screens

  function Step(i: nat, count: int, d: Direction): int
  {
    if d == Forward then NextIndex(i, count) else PreviousIndex(i, count)
  }

  /** The screen position reached from start after k steps. */
  function Iterate(start: nat, k: nat, count: int, d: Direction): (r: nat)
    requires start < count
    ensures r < count
  {
    if k == 0 then start
    else
      var i := Iterate(start, k - 1, count, d);
      IndexHelpersInRange(i, count);
      Step(i, count, d)
  }

  /** Stepping is cyclic order: k steps forward from start is start + k modulo
      count, k steps back start - k modulo count; after count steps the walk is
      back where it started. */
  lemma {:induction false} IterateIsCyclic(start: nat, k: nat, count: int, d: Direction)
    requires start < count && k <= count
    ensures d == Forward ==> Iterate(start, k, count, d) == (start + k) % count
    ensures d == Backward ==> Iterate(start, k, count, d) == (start - k) % count
    ensures k == count ==> Iterate(start, k, count, d) == start
  {
    if d == Forward {
      IterateForward(start, k, count);
      ModInRange(start + k, count);
    } else {
      IterateBackward(start, k, count);
      ModInRange(start - k, count);
    }
  }

  /** The forward half of IterateIsCyclic, by induction on k. */
  lemma {:induction false} IterateForward(start: nat, k: nat, count: int)
    requires start < count && k <= count
    ensures Iterate(start, k, count, Forward) == (start + k) % count
  {
    if k > 0 {
      IterateForward(start, k - 1, count);
      IndexHelpersInRange(Iterate(start, k - 1, count, Forward), count);
      ModInRange(start + k - 1, count);
      ModInRange(start + k, count);
    }
  }

  /** The backward half of IterateIsCyclic, by induction on k. */
  lemma {:induction false} IterateBackward(start: nat, k: nat, count: int)
    requires start < count && k <= count
    ensures Iterate(start, k, count, Backward) == (start - k) % count
  {
    if k > 0 {
      IterateBackward(start, k - 1, count);
      IndexHelpersInRange(Iterate(start, k - 1, count, Backward), count);
      ModInRange(start - k + 1, count);
      ModInRange(start - k, count);
    }
  }

  /** Some window of the list accepts focus. */
  predicate Live(list: seq<Window>, accepts: Window -> bool)
  {
    exists i :: 0 <= i < |list| && accepts(list[i])
  }

  /** The first step k' in [k, count] whose screen is live. */
  function FirstLiveStep(lists: seq<seq<Window>>, accepts: Window -> bool, start: nat, d: Direction, k: nat): (r: Option<nat>)
    requires start < |lists| && k >= 1
    ensures r.Some? ==> k <= r.value <= |lists| && Live(lists[Iterate(start, r.value, |lists|, d)], accepts)
    ensures r.Some? ==> forall j :: k <= j < r.value ==> !Live(lists[Iterate(start, j, |lists|, d)], accepts)
    ensures r.None? ==> forall j :: k <= j <= |lists| ==> !Live(lists[Iterate(start, j, |lists|, d)], accepts)
    decreases |lists| + 1 - k
  {
    if k > |lists| then None
    else if Live(lists[Iterate(start, k, |lists|, d)], accepts) then Some(k)
    else FirstLiveStep(lists, accepts, start, d, k + 1)
  }

  /** The screen `next` / `previous` returns: the first live screen among the
      count steps, or the starting screen when none is live. */
  function CycledScreen(lists: seq<seq<Window>>, accepts: Window -> bool, start: nat, d: Direction): nat
    requires start < |lists|
  {
    match FirstLiveStep(lists, accepts, start, d, 1)
    case Some(k) => Iterate(start, k, |lists|, d)
    case None => start
  }

  /** The focus requests for the first n windows of a list, in order. */
  function Focused(list: seq<Window>, n: nat): (r: seq<Action>)
    requires n <= |list|
    ensures |r| == n
    ensures forall i :: 0 <= i < n ==> r[i] == Focus(list[i])
  {
    seq(n, i requires 0 <= i < n => Focus(list[i]))
  }

  /** The focus requests the inner loop of `next` / `previous` makes on one
      screen: each window in turn, up to and including the first that accepts
      focus, or all of them when none does. */
  function Attempts(list: seq<Window>, accepts: Window -> bool): (r: seq<Action>)
    ensures |r| <= |list|
    ensures forall i :: 0 <= i < |r| ==> r[i] == Focus(list[i])
    ensures forall i :: 0 <= i < |r| - 1 ==> !accepts(list[i])
    ensures Live(list, accepts) <==> |r| > 0 && accepts(list[|r| - 1])
    ensures !Live(list, accepts) ==> |r| == |list|
  {
    match FirstIndex(list, accepts)
    case Some(i) => Focused(list, i + 1)
    case None => Focused(list, |list|)
  }

  /** The focus requests of the first n screens in cyclic order from the
      starting screen's neighbour, screen after screen. */
  function Visited(lists: seq<seq<Window>>, accepts: Window -> bool, start: nat, d: Direction, n: nat): seq<Action>
    requires start < |lists| && n <= |lists|
  {
    if n == 0 then []
    else Visited(lists, accepts, start, d, n - 1) + Attempts(lists[Iterate(start, n, |lists|, d)], accepts)
  }

  /** How many screens `next` / `previous` visit: up to the first live one,
      or all of them. */
  function ScreensVisited(lists: seq<seq<Window>>, accepts: Window -> bool, start: nat, d: Direction): (n: nat)
    requires start < |lists|
    ensures n <= |lists|
  {
    match FirstLiveStep(lists, accepts, start, d, 1)
    case Some(k) => k
    case None => |lists|
  }

  /** The inner loop of `next()` / `previous()` on one screen: focus its
      windows in turn and stop at the first that accepts. */
  method FocusScreen(list: seq<Window>, accepts: Window -> bool) returns (accepted: bool, tried: seq<Action>)
    ensures tried == Attempts(list, accepts)
    ensures accepted <==> Live(list, accepts)
  {
    tried := [];
    for j := 0 to |list|
      invariant tried == Focused(list, j)
      invariant forall i :: 0 <= i < j ==> !accepts(list[i])
    {
      tried := tried + [Focus(list[j])];
      if accepts(list[j]) {
        assert FirstIndex(list, accepts) == Some(j);
        return true, tried;
      }
    }
    assert FirstIndex(list, accepts).None?;
    return false, tried;
  }

  /** One turn of the outer loop of `next()` / `previous()`: step to the
      k-th screen and focus its windows in turn. */
  method VisitScreen(lists: seq<seq<Window>>, accepts: Window -> bool, start: nat, d: Direction, k: nat, screen: nat)
    returns (next: nat, accepted: bool, tried: seq<Action>)
    requires start < |lists| && 1 <= k <= |lists|
    requires screen == Iterate(start, k - 1, |lists|, d)
    ensures next == Iterate(start, k, |lists|, d)
    ensures tried == Attempts(lists[next], accepts)
    ensures accepted <==> Live(lists[next], accepts)
  {
    IndexHelpersInRange(screen, |lists|);
    next := Step(screen, |lists|, d);
    accepted, tried := FocusScreen(lists[next], accepts);
  }

  /** `next()` (Forward) and `previous()` (Backward): step the screen `count`
      times, focusing each window of each screen reached, and return at the
      first focus that succeeds. The log is exactly the focus requests of the
      screens visited, in order; VisitedLog gives its shape. */
  method CycleScreens(lists: seq<seq<Window>>, accepts: Window -> bool, start: nat, d: Direction)
    returns (r: nat, log: seq<Action>)
    requires start < |lists|
    ensures r == CycledScreen(lists, accepts, start, d)
    ensures log == Visited(lists, accepts, start, d, ScreensVisited(lists, accepts, start, d))
  {
    var count := |lists|;
    var screen := start;
    log := [];
    for k := 1 to count + 1
      invariant screen == Iterate(start, k - 1, count, d)
      invariant FirstLiveStep(lists, accepts, start, d, 1) == FirstLiveStep(lists, accepts, start, d, k)
      invariant log == Visited(lists, accepts, start, d, k - 1)
    {
      var accepted, tried;
      screen, accepted, tried := VisitScreen(lists, accepts, start, d, k, screen);
      log := log + tried;
      if accepted {
        assert ScreensVisited(lists, accepts, start, d) == k;
        return screen, log;
      }
    }
    assert ScreensVisited(lists, accepts, start, d) == count;
    IterateIsCyclic(start, count, count, d);
    r := screen;
  }

  /** Appending one screen's attempts to refused focus requests: every entry
      is a focus request, all but the last are refused, and the last is
      accepted exactly when the screen is live. */
  lemma AppendAttempts(before: seq<Action>, list: seq<Window>, accepts: Window -> bool)
    requires forall i :: 0 <= i < |before| ==> before[i].Focus? && !accepts(before[i].window)
    ensures var v := before + Attempts(list, accepts);
      && (forall i :: 0 <= i < |v| ==> v[i].Focus?)
      && (forall i :: 0 <= i < |v| - 1 ==> !accepts(v[i].window))
      && (Live(list, accepts) <==> |v| > 0 && accepts(v[|v| - 1].window))
  {
    var a := Attempts(list, accepts);
    var v := before + a;
    forall i | |before| <= i < |v| ensures v[i] == Focus(list[i - |before|]) {
      assert v[i] == a[i - |before|];
    }
    if |a| == 0 && |v| > 0 {
      assert v[|v| - 1] == before[|before| - 1];
    }
  }

  /** Screens with no window accepting focus leave only refused focus
      requests. */
  lemma {:induction false} VisitedRefused(lists: seq<seq<Window>>, accepts: Window -> bool, start: nat, d: Direction, n: nat)
    requires start < |lists| && n <= |lists|
    requires forall j :: 1 <= j <= n ==> !Live(lists[Iterate(start, j, |lists|, d)], accepts)
    ensures forall i :: 0 <= i < |Visited(lists, accepts, start, d, n)| ==>
      Visited(lists, accepts, start, d, n)[i].Focus? && !accepts(Visited(lists, accepts, start, d, n)[i].window)
  {
    if n > 0 {
      VisitedRefused(lists, accepts, start, d, n - 1);
      AppendAttempts(Visited(lists, accepts, start, d, n - 1), lists[Iterate(start, n, |lists|, d)], accepts);
    }
  }

  /** The log of the screens visited holds only focus requests, each refused
      but the last, and the last is accepted exactly when a live screen
      exists. */
  lemma VisitedLog(lists: seq<seq<Window>>, accepts: Window -> bool, start: nat, d: Direction)
    requires start < |lists|
    ensures var v := Visited(lists, accepts, start, d, ScreensVisited(lists, accepts, start, d));
      && (forall i :: 0 <= i < |v| ==> v[i].Focus?)
      && (forall i :: 0 <= i < |v| - 1 ==> !accepts(v[i].window))
      && (FirstLiveStep(lists, accepts, start, d, 1).Some? <==> |v| > 0 && accepts(v[|v| - 1].window))
  {
    var found := FirstLiveStep(lists, accepts, start, d, 1);
    var v := Visited(lists, accepts, start, d, ScreensVisited(lists, accepts, start, d));
    if found.Some? {
      var k := found.value;
      var before: seq<Action> := Visited(lists, accepts, start, d, k - 1);
      var list := lists[Iterate(start, k, |lists|, d)];
      assert v == before + Attempts(list, accepts);
      VisitedRefused(lists, accepts, start, d, k - 1);
      AppendAttempts(before, list, accepts);
    } else {
      assert v == Visited(lists, accepts, start, d, |lists|);
      VisitedRefused(lists, accepts, start, d, |lists|);
    }
  }

  /** A live step with no live step before it is the one FirstLiveStep finds. */
  lemma FirstLiveStepIsLeast(lists: seq<seq<Window>>, accepts: Window -> bool, start: nat, d: Direction, k: nat)
    requires start < |lists| && 1 <= k <= |lists|
    requires Live(lists[Iterate(start, k, |lists|, d)], accepts)
    requires forall j :: 1 <= j < k ==> !Live(lists[Iterate(start, j, |lists|, d)], accepts)
    ensures FirstLiveStep(lists, accepts, start, d, 1) == Some(k)
  {
  }

  /** Every screen is reached within count steps. */
  lemma EveryScreenIsReached(start: nat, j: nat, count: int, d: Direction) returns (k: nat)
    requires start < count && j < count
    ensures 1 <= k <= count && Iterate(start, k, count, d) == j
  {
    k := if d == Forward then (if j > start then j - start else j - start + count)
         else (if j < start then start - j else start - j + count);
    IterateIsCyclic(start, k, count, d);
    ModInRange(start + k, count);
    ModInRange(start - k, count);
  }

  /** The returned screen is the first one, in cyclic order from the starting
      screen's neighbour, that has a window accepting focus; when no screen
      has one, it is the starting screen. At most count screens are visited. */
  lemma CycledScreenIsFirstLive(lists: seq<seq<Window>>, accepts: Window -> bool, start: nat, d: Direction)
    requires start < |lists|
    ensures var r := CycledScreen(lists, accepts, start, d);
      || (exists k :: 1 <= k <= |lists| && r == Iterate(start, k, |lists|, d)
            && Live(lists[r], accepts)
            && forall j :: 1 <= j < k ==> !Live(lists[Iterate(start, j, |lists|, d)], accepts))
      || (r == start && forall j :: 0 <= j < |lists| ==> !Live(lists[j], accepts))
  {
    var found := FirstLiveStep(lists, accepts, start, d, 1);
    if found.None? {
      forall j | 0 <= j < |lists| ensures !Live(lists[j], accepts) {
        var k := EveryScreenIsReached(start, j, |lists|, d);
      }
    } else {
      var k := found.value;
      assert CycledScreen(lists, accepts, start, d) == Iterate(start, k, |lists|, d);
    }
  }

  // ---------------------------------------------------------------- windows

  /** The i-th window tried (1 <= i <= count) from the focused position f.
      Forward it is `windows.index(focus + i)` as written; backward it is the
      wrap-around index, where the written one is `PreviousCandidateAsWritten`. */
  function Candidate(f: nat, i: nat, count: int, d: Direction): (r: int)
    requires count > 0
    ensures 0 <= r < count
    ensures d == Forward ==> r == ArrayIndex(f + i, count)
  {
    if d == Forward then WrapIndex(f + i, count) else WrapIndex(f - i, count)
  }

  /** The candidates visit every window exactly once, starting with the
      neighbour of the focused window and ending with the focused window. */
  lemma CandidatesCoverTheList(f: nat, count: int, d: Direction)
    requires f < count
    ensures Candidate(f, 1, count, d) == Step(f, count, d)
    ensures Candidate(f, count, count, d) == f
    ensures forall i, j :: 1 <= i < j <= count ==> Candidate(f, i, count, d) != Candidate(f, j, count, d)
  {
    IndexHelpersInRange(f, count);
    ModInRange(f + 1, count);
    ModInRange(f - 1, count);
    ModInRange(f + count, count);
    ModInRange(f - count, count);
    forall i, j | 1 <= i < j <= count ensures Candidate(f, i, count, d) != Candidate(f, j, count, d) {
      ModInRange(f + i, count);
      ModInRange(f + j, count);
      ModInRange(f - i, count);
      ModInRange(f - j, count);
    }
  }

  /** The candidate position `previousWindow` tries as written, with the off
      by one `Array.index`. */
  function PreviousCandidateAsWritten(f: nat, i: nat, count: int): int
    requires count > 0
  {
    ArrayIndex(f - i, count)
  }

  /** As written, previous from the first window does not start at the last
      window: with two windows it tries the focused window itself first, and
      the last window is only the last candidate. From any other window the
      last window is never tried, and the window before the focused one is
      tried twice. */
  lemma PreviousCandidatesAsWritten(f: nat, count: int)
    requires 2 <= count && f < count
    ensures f == 0 ==> PreviousCandidateAsWritten(0, 1, count) == count - 2
    ensures count == 2 ==> PreviousCandidateAsWritten(0, 1, count) == 0
    ensures f > 0 ==> forall i :: 1 <= i <= count ==> PreviousCandidateAsWritten(f, i, count) != count - 1
    ensures f > 0 ==> PreviousCandidateAsWritten(f, 1, count) == PreviousCandidateAsWritten(f, count, count) == f - 1
  {
    ModInRange(1, count);
    if f > 0 {
      forall i | 1 <= i <= count
        ensures PreviousCandidateAsWritten(f, i, count) == if i <= f then f - i else f - i - 1 + count
      {
        PreviousCandidateAsWrittenAt(f, i, count);
      }
    }
  }

  lemma PreviousCandidateAsWrittenAt(f: nat, i: nat, count: int)
    requires 0 < f < count && 1 <= i <= count
    ensures PreviousCandidateAsWritten(f, i, count) == if i <= f then f - i else f - i - 1 + count
  {
    ArrayIndexIsOffByOne(f - i, count);
    ModInRange(f - i, count);
    ModInRange(f - i - 1, count);
  }

  /** The least i in [k, count) whose candidate accepts focus, else count: the
      loop breaks at the first success and otherwise ends on the count-th
      candidate. */
  function FirstAccepted(ws: seq<Window>, accepts: Window -> bool, f: nat, d: Direction, k: nat): (r: nat)
    requires f < |ws| && 1 <= k <= |ws|
    ensures k <= r <= |ws|
    ensures forall j :: k <= j < r ==> !accepts(ws[Candidate(f, j, |ws|, d)])
    ensures r < |ws| ==> accepts(ws[Candidate(f, r, |ws|, d)])
    decreases |ws| - k
  {
    if k == |ws| || accepts(ws[Candidate(f, k, |ws|, d)]) then k
    else FirstAccepted(ws, accepts, f, d, k + 1)
  }

  /** What `nextWindow()` / `previousWindow()` return. */
  function CycledWindow(ws: seq<Window>, accepts: Window -> bool, d: Direction): Option<Window>
  {
    match FirstIndex(ws, IsFocused)
    case None => None
    case Some(f) => Some(ws[Candidate(f, FirstAccepted(ws, accepts, f, d, 1), |ws|, d)])
  }

  /** `nextWindow()` (Forward) and `previousWindow()` (Backward), with the
      wrap-around index as intended: nothing when no window is focused;
      otherwise focus the candidates in turn, stopping at the first success. */
  method CycleWindows(ws: seq<Window>, accepts: Window -> bool, d: Direction)
    returns (r: Option<Window>, log: seq<Action>)
    ensures r == CycledWindow(ws, accepts, d)
    ensures r.None? ==> log == []
    ensures r.Some? ==> var f := FirstIndex(ws, IsFocused).value;
      && |log| == FirstAccepted(ws, accepts, f, d, 1)
      && forall i :: 0 <= i < |log| ==> log[i] == Focus(ws[Candidate(f, i + 1, |ws|, d)])
  {
    var focus := FirstIndex(ws, IsFocused);
    if focus.None? {
      return None, [];
    }
    var window;
    window, log := TryCandidates(ws, accepts, focus.value, d);
    r := Some(window);
  }

  /** The loop of `nextWindow()` / `previousWindow()` from the focused window
      f: focus candidate i for i = 1 ... count, and stop at the first that
      accepts. The log holds one focus request per candidate tried. */
  method TryCandidates(ws: seq<Window>, accepts: Window -> bool, f: nat, d: Direction)
    returns (window: Window, log: seq<Action>)
    requires FirstIndex(ws, IsFocused) == Some(f)
    ensures |log| == FirstAccepted(ws, accepts, f, d, 1)
    ensures Some(window) == CycledWindow(ws, accepts, d)
    ensures forall i :: 0 <= i < |log| ==> log[i] == Focus(ws[Candidate(f, i + 1, |ws|, d)])
  {
    log := [];
    window := ws[f];
    var count := |ws|;
    var i := 1;
    ghost var stop := count;
    while i <= count
      invariant 1 <= i <= count + 1
      invariant |log| == i - 1
      invariant log == Tried(ws, f, d, i - 1)
      invariant forall j :: 1 <= j < i ==> !accepts(ws[Candidate(f, j, count, d)])
      invariant i > 1 ==> window == ws[Candidate(f, i - 1, count, d)]
    {
      var next := if d == Forward then WrapIndex(f + i, count) else WrapIndex(f - i, count);
      assert next == Candidate(f, i, count, d);
      window := ws[next];
      TriedOneMore(ws, f, d, i);
      log := log + [Focus(window)];
      if accepts(window) {
        stop := i;
        break;
      }
      i := i + 1;
    }
    assert window == ws[Candidate(f, stop, count, d)];
    AcceptedCandidateIsCycled(ws, accepts, f, d, stop);
  }

  /** The focus requests for the first n candidates. */
  function Tried(ws: seq<Window>, f: nat, d: Direction, n: nat): (r: seq<Action>)
    requires n <= |ws|
    ensures |r| == n
    ensures forall j :: 0 <= j < n ==> r[j] == Focus(ws[Candidate(f, j + 1, |ws|, d)])
  {
    seq(n, j requires 0 <= j < n => Focus(ws[Candidate(f, j + 1, |ws|, d)]))
  }

  lemma TriedOneMore(ws: seq<Window>, f: nat, d: Direction, n: nat)
    requires 1 <= n <= |ws|
    ensures Tried(ws, f, d, n) == Tried(ws, f, d, n - 1) + [Focus(ws[Candidate(f, n, |ws|, d)])]
  {
  }

  /** When the loop stops at candidate k, having been refused by every
      candidate before it, and accepted by k unless k is the last, then k is
      the first accepted candidate and its window is the cycled window. */
  lemma AcceptedCandidateIsCycled(ws: seq<Window>, accepts: Window -> bool, f: nat, d: Direction, k: nat)
    requires FirstIndex(ws, IsFocused) == Some(f)
    requires 1 <= k <= |ws|
    requires forall j :: 1 <= j < k ==> !accepts(ws[Candidate(f, j, |ws|, d)])
    requires k < |ws| ==> accepts(ws[Candidate(f, k, |ws|, d)])
    ensures FirstAccepted(ws, accepts, f, d, 1) == k
    ensures CycledWindow(ws, accepts, d) == Some(ws[Candidate(f, k, |ws|, d)])
  {
    FirstAcceptedIsLeast(ws, accepts, f, d, k);
  }

  lemma FirstAcceptedIsLeast(ws: seq<Window>, accepts: Window -> bool, f: nat, d: Direction, k: nat)
    requires f < |ws| && 1 <= k <= |ws|
    requires forall j :: 1 <= j < k ==> !accepts(ws[Candidate(f, j, |ws|, d)])
    requires k < |ws| ==> accepts(ws[Candidate(f, k, |ws|, d)])
    ensures FirstAccepted(ws, accepts, f, d, 1) == k
  {
  }

  /** `nextWindow` returns nothing exactly when no window is focused. Otherwise
      it returns the first candidate that accepts focus, and the focused window
      itself when none does. */
  lemma CycledWindowCharacterized(ws: seq<Window>, accepts: Window -> bool, d: Direction)
    ensures CycledWindow(ws, accepts, d).None? <==> forall i :: 0 <= i < |ws| ==> !IsFocused(ws[i])
    ensures CycledWindow(ws, accepts, d).Some? ==>
      var f := FirstIndex(ws, IsFocused).value;
      var w := CycledWindow(ws, accepts, d).value;
      || (exists k :: 1 <= k <= |ws| && w == ws[Candidate(f, k, |ws|, d)] && accepts(w)
            && forall j :: 1 <= j < k ==> !accepts(ws[Candidate(f, j, |ws|, d)]))
      || (w == ws[f] && forall j :: 1 <= j < |ws| ==> !accepts(ws[Candidate(f, j, |ws|, d)]))
  {
    var focus := FirstIndex(ws, IsFocused);
    if focus.Some? {
      var f := focus.value;
      CandidatesCoverTheList(f, |ws|, d);
      var k := FirstAccepted(ws, accepts, f, d, 1);
      var w := ws[Candidate(f, k, |ws|, d)];
      assert CycledWindow(ws, accepts, d) == Some(w);
      if k == |ws| {
        assert w == ws[f];
      } else {
        assert accepts(w);
      }
    }
  }
}

# hocus window layout and navigation, in Dafny

hocus is a macOS menu-bar utility that tiles and moves windows from keyboard
chords. This project models the part of it that decides things, between a key
event and the accessibility calls that move a window:

- the layout geometry of `Container.area`: halves, thirds, the centred square,
  the 3×3 grid, the rows of the older enum, the whole usable area, and the
  Cocoa-to-accessibility y-flip;
- the window order `isPrior`, with its label compare `strcmp` (section
  7.24.4.2 of ISO/IEC 9899:2011), and the screen order;
- screen and window cycling, with their wrap-around index helpers;
- the window-to-screen assignment, the full-screen test and the toggle
  decision of `fit`;
- `getAllWindows`: the Finder rule, the screen filter and the sort;
- the chord dispatcher: the `Keycode` enum, the modifier fold, `put`, `Key`
  and its `==`, and the `execute` switch tables;
- the `KeyEquivalent` code points and their strings;
- the menu handlers, the menu items' modifier mask, `disableItems`, and the
  choice of the current window and screen.

The repository holds two iterations of this logic. The newer one is modelled
as primary: `screen.swift`, `window.swift`, `key.swift` and
`appdelegate.swift`. The older one is a variant: `logic.swift` and
`app.swift`. Where the two differ, a lemma states the difference.

The older iteration's `Keycode` enum, `put`, `Key` and its `==`
(Sources/hocus/app.swift:3-176) and its `currentWindow`
(Sources/hocus/app.swift:184-186) are the same as the newer ones, and the same
members model them. The older `currentScreenIndex`
(Sources/hocus/app.swift:178-180) reads the same, but there a window's
`screen` is the screen holding its midpoint, or the nearest one
(Sources/hocus/logic.swift:286-298). `LegacyDispatch.LegacyCurrentScreenIndex`
models it through `LegacyNavigation.LegacyAssignScreen`.

The operating system is a snapshot plus an oracle:

- A window is a record of what the accessibility API reported: the
  application's name and frontmost flag, the window's ordinal, its frame and
  its main flag.
- The screen list is a sequence of frames.
- A screen's window list is a given sequence.
- Whether a window reads as focused after `focus()` is an oracle
  `accepts: Window -> bool`.
- Every write (focus, toggle full screen, set position, set size) is an
  entry of a returned action log.
- Coordinates are `real`.
- Containment is defined explicitly. A rectangle lies in another with closed
  edges (`Geometry.Inside`). A point lies in a rectangle with the left and
  top edges counted and the right and bottom ones not (`Geometry.PointIn`).
  Both of these are assumptions about `CGRect.contains` and `NSPointInRect`.
- The AppKit modifier flag bits are taken as AppKit defines them:
  - caps lock 1<<16, shift 1<<17, control 1<<18, option 1<<19, command
    1<<20, function 1<<23;
  - the device-independent mask is 0xFFFF0000;
  - a new `NSMenuItem` has the command mask;
  - an `NSMenu` never holds one item twice.

Places where the code does something other than what its structure
suggests, and what the model does there:

- The newer `next` / `previous` keep focusing windows until one reads as
  focused (Sources/hocus/screen.swift:184-187 and 198-201), and
  `nextWindow` / `previousWindow` keep trying candidates until one takes
  (Sources/hocus/screen.swift:212-219 and 228-235). The older `nextWindow` /
  `previousWindow` ask to focus one window and return
  (Sources/hocus/logic.swift:206-224). The model follows each iteration's
  code; `LegacyNavigation` holds the older one.
- `fit` builds the target from the screen's usable area but compares it with
  `screen.frame`, the whole screen (Sources/hocus/window.swift:79). So with a
  menu bar it never toggles full screen on
  (`Windows.FitNeverEntersFullScreen`). The model follows the code.
- The fourth clause of `isPrior` compares `w.size.height < w.size.height`,
  one value with itself, where each neighbouring clause compares the
  receiver with `w` (Sources/hocus/window.swift:93, and
  Sources/hocus/logic.swift:32). That clause never holds (see Findings). The
  model sorts by the clause with `size.height` on the left and keeps the
  written order beside it.
- `previousWindow` steps by `windows.index(focus - i)`, and `Array.index` is
  one position low for negative arguments (Sources/hocus/screen.swift:229
  and 243; see Findings). The model steps backward by the wrap-around index
  and keeps the written index beside it.

## Model

| member | source | states |
|---|---|---|
| Geometry.IndexHelpersInRange | Sources/hocus/screen.swift:175-176 | for an index in range, `nextIndex` and `previousIndex` stay in range, are index + 1 and index - 1 modulo count, and undo each other |
| Geometry.Position | Sources/hocus/screen.swift:159-165 | the flipped origin keeps x, and its y plus the frame's y and height is the primary screen's height plus the menu bar |
| Geometry.Flipped | Sources/hocus/screen.swift:12-17 | flipping keeps x and the size and moves y by exactly the screen's flipped y |
| Geometry.Area | Sources/hocus/screen.swift:43-100 | the step-by-step area is the reference target: `.next` / `.back` give the `.middle` area of the adjacent screen, every other case its layout of the usable area |
| Geometry.Split | Sources/hocus/screen.swift:49-98 | the switch on a non-moving case yields that case's reference layout of the usable area |
| Geometry.SplitHalf | Sources/hocus/screen.swift:63-69 | halving the width or height, and shifting `.right` / `.down` by the half, gives the reference half |
| Geometry.SplitThirds | Sources/hocus/screen.swift:71-79 | a third and twice a third, with the second part shifted past the first, give the reference thirds |
| Geometry.SplitSquare | Sources/hocus/screen.swift:81-88 | the portrait/landscape updates give the reference centred square |
| Geometry.SplitCell | Sources/hocus/screen.swift:90-95 | the grid updates give cell raw value of the usable area: column raw / 3, row raw % 3 |
| Geometry.ZeroIsUsableArea | Sources/hocus/screen.swift:44-48 | `.zero` is the usable area: the frame x, the flipped y, the frame width and the height without the menu bar |
| Geometry.HalvesTile | Sources/hocus/screen.swift:63-69 | each half has half the extent, and left/right and up/down each tile the usable area with no gap |
| Geometry.ThirdsTile | Sources/hocus/screen.swift:71-79 | the primary and top shares are twice the others, and each pair tiles the usable area |
| Geometry.MiddleIsCenteredSquare | Sources/hocus/screen.swift:81-88 | `.middle` is a square of the shorter side with equal margins on both sides of each axis, and no offset when the area is square |
| Geometry.GridIsColumnMajor | Sources/hocus/screen.swift:90-95 | cell 0 is at the origin, each cell is a third in each direction, the next cell of a column is directly below and the cell three further is directly right |
| Geometry.CellPlacesPoint | Sources/hocus/screen.swift:90-95 | a point lies in cell r exactly when it lies in the area with column r / 3 and row r % 3 |
| Geometry.GridPartitionsUsableArea | Sources/hocus/screen.swift:90-95 | a point lies in the usable area exactly when it lies in one of the nine cells, it never lies in two, and the cells' areas add up to the whole |
| Geometry.LayoutInside | Sources/hocus/screen.swift:63-97 | every non-moving layout of an area of non-negative size lies inside it and has non-negative size |
| Geometry.CellInside | Sources/hocus/screen.swift:90-95 | each grid cell lies inside the area |
| Geometry.AreaBelowMenuBar | Sources/hocus/screen.swift:43-100 | a non-moving area stays inside the usable area, so it is no taller than the frame minus the menu bar |
| LegacyGeometry.GridRawValuesAgree | Sources/hocus/logic.swift:37-43 | the grid cells have the same raw values in both enums |
| LegacyGeometry.LegacyArea | Sources/hocus/logic.swift:45-104 | the older area is its reference target: the rows give their third, `.next` / `.back` give cell `.five` of the adjacent screen, every shared case gives what the newer area gives |
| LegacyGeometry.Split | Sources/hocus/logic.swift:55-100 | on the usable area, `.h` / `.m` / `.l` give rows 0, 1, 2 and every shared case gives the newer layout |
| LegacyGeometry.RowsTile | Sources/hocus/logic.swift:87-90 | the three rows stack without gap from the top of the usable area to its bottom, each of full width |
| LegacyGeometry.RowsPartition | Sources/hocus/logic.swift:87-90 | a point lies in the usable area exactly when it lies in a row, and never in two |
| LegacyGeometry.MovedTargetsDiffer | Sources/hocus/logic.swift:67 | the older move target `.five` is a third of the side; the newer `.middle` is the whole side, so on a square area they differ |
| CString.StrcmpAntisymmetric | Sources/hocus/screen.swift:20-33 | swapping the operands of strcmp negates the result |
| CString.StrcmpReflexive | Sources/hocus/screen.swift:20-33 | strcmp of a string with itself is 0 |
| CString.LessIsConverseOfGreater | Sources/hocus/logic.swift:12-25 | `a < b` holds exactly when `b > a`, and neither holds of a string with itself |
| CString.StrcmpTransitive | Sources/hocus/screen.swift:20-33 | strcmp comparisons chain, strictly when either step is strict |
| CString.StrcmpZeroIffEqual | Sources/hocus/screen.swift:20-33 | on strings without NUL, strcmp is 0 exactly for equal strings |
| Seqs.FirstIndex | Sources/hocus/window.swift:39 | `firstIndex(where:)`: the index found satisfies the test and none before it does; none is found exactly when no element satisfies it |
| Seqs.ArgMin | Sources/hocus/window.swift:53-55 | `min()` then `firstIndex`: the index of a smallest element, with every earlier element strictly larger |
| Sorting.Insert | Sources/hocus/screen.swift:143-145 | insertion adds exactly the one element |
| Sorting.Sort | Sources/hocus/screen.swift:143-145 | the sort is a permutation of its input |
| Sorting.ConsSorted | Sources/hocus/screen.swift:143-145 | a head no later element precedes keeps a sorted list sorted |
| Sorting.InsertSorted | Sources/hocus/screen.swift:143-145 | inserting into a sorted list keeps it sorted under a strict weak order |
| Sorting.SortSorted | Sources/hocus/screen.swift:143-145 | under a strict weak order the sort's result is sorted |
| Sorting.SortIdempotent | Sources/hocus/screen.swift:143-145 | sorting a sorted list leaves it as it is |
| ScreenList.OriginPriorStrictWeakOrder | Sources/hocus/screen.swift:248-250 | the screen comparison (x, then y) is a strict weak order |
| ScreenList.Frames | Sources/hocus/screen.swift:247-252 | the frames of the screens, in order |
| ScreenList.Screens | Sources/hocus/screen.swift:247-252 | `screens` holds every display once, sorted by origin, each numbered by its position |
| ScreenList.ScreensOrderedByOrigin | Sources/hocus/logic.swift:326-331 | earlier screens have no larger x, and on equal x no larger y |
| Windows.Decimal | Sources/hocus/window.swift:57-59 | the ordinal in the label is a non-empty run of decimal digits |
| Windows.DecimalRoundTrip | Sources/hocus/window.swift:57-59 | reading the digits back gives the ordinal |
| Windows.DescriptionInjective | Sources/hocus/window.swift:57-59 | the label determines the application name and the ordinal |
| Windows.DescriptionsDiffer | Sources/hocus/window.swift:57-59 | two different windows have labels strcmp tells apart, so two windows of one application differ in the last tie-break |
| Windows.DescriptionHasNoNul | Sources/hocus/window.swift:57-59 | a label of an application name without NUL has no NUL |
| Windows.AsWrittenIgnoresHeight | Sources/hocus/window.swift:93 | as written, windows at one place and width are ordered only when their heights are equal, whatever their labels |
| Windows.AsWrittenIsNotAWeakOrder | Sources/hocus/window.swift:89-95 | as written, the order is not a strict weak order: three windows where being unordered does not chain |
| Windows.IsPriorIsLexicographic | Sources/hocus/window.swift:89-95 | the order is exactly the lexicographic comparison of x up, y up, width up, height down, label up |
| Windows.LexicographicOfFive | Sources/hocus/window.swift:89-95 | comparing five keys lexicographically takes the first one that is not a tie |
| Windows.IsPriorIsStrictOrder | Sources/hocus/window.swift:89-95 | the order is irreflexive, asymmetric and transitive |
| Windows.IsPriorNegativelyTransitive | Sources/hocus/window.swift:89-95 | not being prior chains, so ties are an equivalence |
| Windows.IsPriorStrictWeakOrder | Sources/hocus/logic.swift:28-34 | the order is a strict weak order on any list, which sorting by it needs |
| Windows.IsPriorTotal | Sources/hocus/window.swift:89-95 | for windows whose frames or labels differ, exactly one is prior to the other |
| Windows.Distances | Sources/hocus/window.swift:53 | the squared distance from each screen's centre to the frame's centre |
| Windows.AssignScreen | Sources/hocus/window.swift:36-56 | the first screen holding the flipped frame; or else the first holding its flipped centre; or else the first of the nearest screens |
| Windows.Fit | Sources/hocus/window.swift:73-85 | the log is exactly one full-screen toggle when "the area is the whole frame" differs from "the window is full", and no toggle otherwise, followed by setting position and size to the area |
| Windows.FitNeverEntersFullScreen | Sources/hocus/window.swift:79-82 | with a menu bar the area is never the whole frame, so `fit` toggles exactly when the window is full: it never enters full screen |
| WindowList.Largest | Sources/hocus/screen.swift:130-132 | the first window of largest area |
| WindowList.DropIndex | Sources/hocus/screen.swift:133 | the filter keeps exactly the windows whose index differs |
| WindowList.DropIndexOfEnumerated | Sources/hocus/screen.swift:133 | in a list numbered from an offset, the filter removes exactly the window at that index's position |
| WindowList.DropAfterHead | Sources/hocus/screen.swift:133 | removing a position after the head is the head followed by its removal from the tail |
| WindowList.DropIndexOfFirst | Sources/hocus/screen.swift:133 | the filter on the first window's index removes the first window only |
| WindowList.DropIndexMisses | Sources/hocus/screen.swift:133 | the filter on an index below the numbering keeps every window |
| WindowList.PrunedDropsOneLargest | Sources/hocus/screen.swift:128-135 | Finder loses exactly one window, one of largest area, and keeps the rest in order; any other application is unchanged |
| WindowList.AllPruned | Sources/hocus/screen.swift:128-135 | every application is pruned |
| WindowList.InFlatten | Sources/hocus/screen.swift:136 | a window is in the flattened list exactly when it belongs to some application |
| WindowList.OnScreen | Sources/hocus/screen.swift:138 | the filter keeps exactly the windows assigned to the screen |
| WindowList.GetAllWindows | Sources/hocus/screen.swift:119-147 | the result is a permutation of the kept windows: with a screen given and a full window among them, they come in their given order; otherwise they are sorted by the window order |
| WindowList.KeptWindowsBelong | Sources/hocus/screen.swift:136-138 | every window returned belongs to a pruned application and, with a screen given, is assigned to it |
| Navigation.ArrayIndex | Sources/hocus/screen.swift:240-245 | `Array.index` as written is always in range |
| Navigation.WrapIndex | Sources/hocus/screen.swift:240-245 | the intended wrap-around index is always in range |
| Navigation.ArrayIndexIsOffByOne | Sources/hocus/screen.swift:243 | `Array.index` is i mod count for i >= 0, and (i - 1) mod count for negative i |
| Navigation.ModUnique | Sources/hocus/screen.swift:243 | Euclidean division has one quotient and one remainder |
| Navigation.ArrayIndexMinusOne | Sources/hocus/screen.swift:243 | `index(-1)` is count - 2, where the last position is count - 1 |
| Navigation.ModInRange | Sources/hocus/screen.swift:175-176 | for a in [-n, 2n), a mod n is a + n, a or a - n, whichever lies in [0, n) |
| Navigation.Iterate | Sources/hocus/screen.swift:182-183 | k steps of the screen cursor stay in range |
| Navigation.IterateIsCyclic | Sources/hocus/screen.swift:182-197 | k steps forward are start + k mod count, k steps back start - k mod count, and count steps return to the start |
| Navigation.IterateForward | Sources/hocus/screen.swift:182-183 | k forward steps are start + k mod count |
| Navigation.IterateBackward | Sources/hocus/screen.swift:196-197 | k backward steps are start - k mod count |
| Navigation.FirstLiveStep | Sources/hocus/screen.swift:182-188 | the first step from k whose screen has a window accepting focus, with no such step before it; none when there is none up to count |
| Navigation.CycleScreens | Sources/hocus/screen.swift:178-204 | `next` / `previous` return the cycled screen, and log exactly the focus requests of the screens stepped to, in order: each screen's windows from the first until one takes focus, up to and including the first live screen |
| Navigation.Focused | Sources/hocus/screen.swift:184-187 | the first n focus requests of a list are its first n windows, in order |
| Navigation.Attempts | Sources/hocus/screen.swift:184-187 | the inner loop requests focus of the list's windows in order, each refused but the last, and stops at the first taken; it ends with a taken focus exactly when the list is live, and tries every window otherwise |
| Navigation.ScreensVisited | Sources/hocus/screen.swift:183-188 | the number of screens the outer loop steps to is at most the screen count |
| Navigation.FocusScreen | Sources/hocus/screen.swift:184-187 | the inner loop logs the attempts on one screen and reports whether a focus took, exactly when the screen's list is live |
| Navigation.VisitScreen | Sources/hocus/screen.swift:183-187 | one outer step moves to the next screen in the direction and runs the inner loop on it |
| Navigation.AppendAttempts | Sources/hocus/screen.swift:183-188 | a log of refused focus requests followed by one screen's attempts is still all focus requests, each refused but the last, and ends accepted exactly when that screen is live |
| Navigation.VisitedRefused | Sources/hocus/screen.swift:183-188 | while no screen stepped to is live, every logged focus request was refused |
| Navigation.VisitedLog | Sources/hocus/screen.swift:178-204 | the log of `next` / `previous` is all focus requests, each refused but the last, and its last is accepted exactly when some screen stepped to is live |
| Navigation.FirstLiveStepIsLeast | Sources/hocus/screen.swift:182-188 | a live step with none before it is the one found |
| Navigation.EveryScreenIsReached | Sources/hocus/screen.swift:182 | every screen is reached within count steps |
| Navigation.CycledScreenIsFirstLive | Sources/hocus/screen.swift:178-204 | the result is the first screen, in cyclic order from the neighbour, with a window accepting focus, reached in at most count steps; with none it is the starting screen |
| Navigation.Candidate | Sources/hocus/screen.swift:212 | each window tried is a position of the list; forward it is `index(focus + i)` as written, backward the wrap-around index (see Left out) |
| Navigation.CandidatesCoverTheList | Sources/hocus/screen.swift:211-213 | the candidates start at the focused window's neighbour, end at the focused window itself, and visit no window twice |
| Navigation.PreviousCandidatesAsWritten | Sources/hocus/screen.swift:228-230 | as written, previous from the first window starts at count - 2 (the focused window itself when there are two); from any other window the last window is never tried and the one before the focused window is tried twice |
| Navigation.PreviousCandidateAsWrittenAt | Sources/hocus/screen.swift:229 | the i-th candidate of `previousWindow` as written, position by position |
| Navigation.FirstAccepted | Sources/hocus/screen.swift:211-219 | the first candidate that accepts focus, or the count-th when none before it does |
| Navigation.CycleWindows | Sources/hocus/screen.swift:206-238 | `nextWindow` / `previousWindow` return the cycled window, and log one focus request per candidate tried, in order; backward candidates use the wrap-around index (see Left out) |
| Navigation.TryCandidates | Sources/hocus/screen.swift:209-220 | the loop stops at the first candidate that accepts focus, or at the last, having requested focus of each candidate tried |
| Navigation.Tried | Sources/hocus/screen.swift:214 | the focus requests of the first n candidates |
| Navigation.TriedOneMore | Sources/hocus/screen.swift:214 | one more candidate adds its focus request at the end |
| Navigation.AcceptedCandidateIsCycled | Sources/hocus/screen.swift:215-220 | stopping at the first accepted candidate (or the last) yields the cycled window |
| Navigation.FirstAcceptedIsLeast | Sources/hocus/screen.swift:215-217 | an accepted candidate with none accepted before it is the one found |
| Navigation.CycledWindowCharacterized | Sources/hocus/screen.swift:206-221 | nothing is returned exactly when no window is focused; otherwise the first candidate accepting focus, or the focused window itself when none does |
| LegacyNavigation.LiveUnderAcceptAll | Sources/hocus/logic.swift:182 | when every focus call succeeds, a screen can take focus exactly when it has a window |
| LegacyNavigation.LegacyCycleScreens | Sources/hocus/logic.swift:174-204 | the older `next` / `previous` stop at the first screen with a window, checking the starting screen last, and focus its first window; with all lists empty they return the starting screen |
| LegacyNavigation.LegacyWindowIsNewWithFocusAlwaysTaken | Sources/hocus/logic.swift:206-224 | the older window cycling is the newer one when every focus call succeeds; it gives nothing exactly when no window is focused, and a lone focused window gives itself |
| LegacyNavigation.LegacyCycleWindows | Sources/hocus/logic.swift:206-224 | the older `nextWindow` / `previousWindow` return the focused window's neighbour, and nothing exactly when no window is focused; the log is one focus request for the window returned, and empty otherwise |
| LegacyNavigation.LegacyPreviousVersusAsWritten | Sources/hocus/logic.swift:219 | the older `previousWindow` from the first window picks the last; the newer as written starts at the second to last |
| LegacyNavigation.LegacyAssignScreen | Sources/hocus/logic.swift:286-298 | the first screen holding the window's midpoint, otherwise the first of the nearest screens |
| LegacyNavigation.FallbacksAgree | Sources/hocus/logic.swift:295-297 | when no screen holds the window in either convention, both iterations pick the same nearest screen |
| LegacyNavigation.LegacyOnScreen | Sources/hocus/logic.swift:140 | the filter keeps exactly the windows the older rule assigns to the screen |
| LegacyNavigation.LegacyGetAllWindows | Sources/hocus/logic.swift:129-149 | with a screen that has a full window, that first full window alone; otherwise a permutation of the kept windows sorted by the window order |
| Keycodes.Raw | Sources/hocus/app.swift:3-126 | every raw value is below 0x80 |
| Keycodes.FromRawInvertsSpecialRaw | Sources/hocus/app.swift:7-33 | the editing, modifier and arrow keys are found from their raw values |
| Keycodes.FromRawInvertsFunctionRowRaw | Sources/hocus/app.swift:34-54 | the function-row keys are found from their raw values |
| Keycodes.FromRawInvertsLetterRaw | Sources/hocus/app.swift:59-84 | the letters are found from their raw values |
| Keycodes.FromRawInvertsDigitRaw | Sources/hocus/app.swift:86-95 | the digits are found from their raw values |
| Keycodes.FromRawInvertsSymbolRaw | Sources/hocus/app.swift:97-107 | the punctuation keys are found from their raw values |
| Keycodes.FromRawInvertsKeypadRaw | Sources/hocus/app.swift:109-125 | the keypad keys are found from their raw values |
| Keycodes.FromRawInvertsRaw | Sources/hocus/app.swift:3-126 | `Keycode(rawValue:)` recovers every case from its raw value |
| Keycodes.RawInvertsFromRawQuarter0 | Sources/hocus/app.swift:3-126 | a case found among codes 0x00-0x1F has that code |
| Keycodes.RawInvertsFromRawQuarter1 | Sources/hocus/app.swift:3-126 | a case found among codes 0x20-0x3F has that code |
| Keycodes.RawInvertsFromRawQuarter2 | Sources/hocus/app.swift:3-126 | a case found among codes 0x40-0x5F has that code |
| Keycodes.RawInvertsFromRawQuarter3 | Sources/hocus/app.swift:3-126 | a case found among codes 0x60-0x7F has that code |
| Keycodes.RawInvertsFromRaw | Sources/hocus/app.swift:3-126 | a case found from a code has that code as raw value |
| Keycodes.RawInjective | Sources/hocus/app.swift:3-126 | raw values are pairwise distinct |
| ModifierFlags.Reduce | hocus/input/modifier.swift:13 | the OR of the keys' raw values is below 0x80, and 0 for no keys |
| ModifierFlags.KeycodeMask | hocus/input/modifier.swift:12-15 | `Modifier(keys)` is below 0x80 |
| ModifierFlags.ReduceHasMember | hocus/input/modifier.swift:13 | every key's bits are in the fold |
| ModifierFlags.ReduceAbsorbsSubset | hocus/input/modifier.swift:13 | the fold of a subset is absorbed in the fold of the superset |
| ModifierFlags.ReduceIsOrderIndependent | hocus/input/modifier.swift:13 | two walks of the same set, in any order and with repeats, give the same fold |
| ModifierFlags.KeycodeMaskHasNoFlag | hocus/input/modifier.swift:12-15 | a folded mask holds no device-independent modifier flag |
| ModifierFlags.FlagsOf | hocus/input/key.swift:31-52 | the flag word of a set of modifiers leaves the low half-word clear |
| ModifierFlags.FlagsOfHasExactly | hocus/input/key.swift:31-52 | each modifier flag is set exactly when its keycode is in the set |
| ModifierFlags.ContainsModifierIsNotContainment | hocus/input/modifier.swift:16-18 | `contains(modifier:)` holds exactly when either word is non-zero, so shift alone "contains" control |
| Keys.HeldIsFlagged | hocus/input/key.swift:31-52 | a modifier is held exactly when it is one of the five and the word holds its flag |
| Keys.HeldFacts | hocus/input/key.swift:31-52 | only the five modifiers `put` checks can be held, a zero word holds none, and the function key is never inserted |
| Keys.Put | hocus/input/key.swift:31-52 | `put` adds to the set exactly the modifiers the flags hold |
| Keys.NewKey | hocus/input/key.swift:20-25 | the chord's keys are the modifiers and the base key, which is always one of them |
| Keys.KeyFromEvent | hocus/input/key.swift:14-19 | for a known keycode, the chord is the key and the held modifiers, and its key has that raw value |
| Keys.EqualIsIdentity | hocus/input/key.swift:26-28 | `==` holds exactly for equal base keys and equal key sets |
| Keys.AtMostOneRow | hocus/input/key.swift:54-125 | with distinct row keys a chord matches at most one row, and a matching chord holds exactly the modifiers and the row key |
| Keys.LookupFindsRow | hocus/input/key.swift:54-125 | the switch runs a row's operation for that row's chord |
| Keys.LookupMissesRows | hocus/input/key.swift:123 | a chord matching no row falls to the default, which does nothing |
| Keys.IndexedRowsAreDistinct | hocus/input/key.swift:54-125 | a table indexed by its keys has distinct row keys |
| Keys.LookupIsRowOfKey | hocus/input/key.swift:54-125 | over an indexed table the switch runs the base key's row when the chord holds exactly the modifiers and the key, and nothing otherwise |
| Keys.DigitRowsIndexed | hocus/input/key.swift:57-76 | each digit row is found from its key and does what the key's binding says |
| Keys.LayoutRowsIndexed | hocus/input/key.swift:79-105 | each layout row is found from its key and does what the key's binding says |
| Keys.MotionRowsIndexed | hocus/input/key.swift:107-121 | each motion and full-screen row is found from its key and does what the key's binding says |
| Keys.EveryRowIndexed | hocus/input/key.swift:54-125 | every row of the table is found from its key and does what the key's binding says |
| Keys.RowIndexNamesItsRow | hocus/input/key.swift:54-125 | the row index names a row only for that row's key |
| Keys.UnboundKeysHaveNoRow | hocus/input/key.swift:123 | a key has no row exactly when its binding does nothing |
| Keys.RowsAreIndexed | hocus/input/key.swift:54-125 | the row keys are distinct, no row does nothing, every row does its key's binding, and a key has a row exactly when it is bound |
| Keys.ExecuteIsBinding | hocus/input/key.swift:54-125 | `execute` runs the base key's binding when the chord holds exactly option, control and the key, and nothing otherwise |
| Keys.ExecuteCharacterized | hocus/input/key.swift:54-125 | `execute` does something exactly when the key has a row and the chord holds exactly the modifiers and the key, and then it runs that row |
| Keys.EventDispatch | hocus/input/key.swift:14-19 | a key event does something exactly when its key is bound and exactly option and control are held; caps lock, shift or command make it do nothing |
| Keys.ExecuteChordIsBinding | hocus/input/key.swift:20-25 | a key chorded with exactly the modifiers runs its binding |
| Keys.ExecuteDigitLayouts | hocus/input/key.swift:57-76 | 0 fits the whole usable area and 1, 5, 9 fit their grid cells |
| Keys.ExecuteSymbolLayouts | hocus/input/key.swift:99-121 | m fits `.middle`, period `.next`, comma `.back`, and = toggles full screen |
| Keys.ExecuteWindowMotion | hocus/input/key.swift:107-112 | k and the up arrow go to the previous window, j and the down arrow to the next |
| Keys.ExecuteScreenMotion | hocus/input/key.swift:113-118 | h and the left arrow go to the previous screen, l and the right arrow to the next |
| Keys.HeldInvertsFlagsOf | hocus/input/key.swift:31-52 | the held modifiers of a set's flag word are the set's modifiers among the five |
| LegacyDispatch.LegacyDigitRowsIndexed | Sources/hocus/app.swift:201-220 | each older digit row is found from its key and does the key's older binding |
| LegacyDispatch.LegacyRowRowsIndexed | Sources/hocus/app.swift:222-227 | h, m and l are found from their keys and fit the three rows |
| LegacyDispatch.LegacyLayoutRowsIndexed | Sources/hocus/app.swift:229-252 | each older layout row is found from its key and does the key's older binding |
| LegacyDispatch.LegacyMotionRowsIndexed | Sources/hocus/app.swift:254-264 | each older motion and full-screen row is found from its key and does the key's older binding |
| LegacyDispatch.EveryLegacyRowIndexed | Sources/hocus/app.swift:198-267 | every older row is found from its key and does the key's older binding |
| LegacyDispatch.LegacyRowIndexNamesItsRow | Sources/hocus/app.swift:198-267 | the older row index names a row only for that row's key |
| LegacyDispatch.LegacyUnboundKeysHaveNoRow | Sources/hocus/app.swift:266 | a key has no older row exactly when its older binding does nothing |
| LegacyDispatch.LegacyRowsAreIndexed | Sources/hocus/app.swift:198-267 | the older row keys are distinct, no row does nothing, and every row does its key's older binding |
| LegacyDispatch.LegacyExecuteIsBinding | Sources/hocus/app.swift:198-267 | the older `execute` runs the key's older binding when the chord holds exactly shift, option, control and the key, and nothing otherwise |
| LegacyDispatch.LegacyExecuteKeycodeIsBinding | Sources/hocus/app.swift:191-196 | the older `execute(_ keycode:)` runs the key's older binding |
| LegacyDispatch.LegacyMenuHandlers | Sources/hocus/app.swift:299-307 | the older menu's left, right and fill fit the left half, the right half and the whole usable area |
| LegacyDispatch.SharedBindingsAgree | Sources/hocus/app.swift:198-267 | every key the older table binds to something other than a row has the same binding, under the same name, in the newer table |
| LegacyDispatch.RowKeysChanged | Sources/hocus/app.swift:222-227 | h, m, l fit the rows in the older table; the newer one sends h and l to the previous and next screen and m to `.middle` |
| LegacyDispatch.MotionKeysAdded | hocus/input/key.swift:107-112 | k and j do nothing in the older table and move between windows in the newer one |
| LegacyDispatch.ChordsDoNotCross | Sources/hocus/app.swift:191 | a chord with the older modifiers matches no newer row, and one with the newer modifiers no older row |
| LegacyDispatch.LegacyCurrentScreenIndex | Sources/hocus/app.swift:178-180 | the older current screen index is the midpoint screen of the current window, in range, and 0 when there is no current window; a screen holding the midpoint is chosen when one exists |
| KeyEquivalents.Raw | hocus/input/keyequivalent.swift:9-84 | every raw value lies in 0xF700-0xF747 |
| KeyEquivalents.ArrowsConsecutive | hocus/input/keyequivalent.swift:10-13 | the arrows count up from 0xF700 |
| KeyEquivalents.FKeysConsecutive | hocus/input/keyequivalent.swift:14-48 | f1 to f35 count up from 0xF704 |
| KeyEquivalents.EditingConsecutive | hocus/input/keyequivalent.swift:49-55 | insert to page down count up from 0xF727 |
| KeyEquivalents.SystemConsecutive | hocus/input/keyequivalent.swift:56-65 | print screen to system count up from 0xF72E |
| KeyEquivalents.CommandsConsecutive | hocus/input/keyequivalent.swift:66-81 | print to mode switch count up from 0xF738 |
| KeyEquivalents.RawValuesConsecutive | hocus/input/keyequivalent.swift:10-81 | the 72 raw values run from 0xF700 to 0xF747 in declaration order |
| KeyEquivalents.ListedAtItsRawValue | hocus/input/keyequivalent.swift:10-81 | every case is listed at the position its raw value gives |
| KeyEquivalents.RawInjective | hocus/input/keyequivalent.swift:10-81 | no two cases share a raw value |
| KeyEquivalents.RawIsScalarValue | hocus/input/keyequivalent.swift:83 | every raw value is a Unicode scalar value, so the force-unwrap never fails |
| KeyEquivalents.String | hocus/input/keyequivalent.swift:83 | `string` is one character whose scalar value is the raw value |
| KeyEquivalents.StringInjective | hocus/input/keyequivalent.swift:83 | different cases give different strings |
| AppDelegate.ExecuteKeycodeIsBinding | hocus/appdelegate.swift:27-35 | `execute(_ keycode:)` builds the chord of exactly option, control and the key, and runs the key's binding |
| AppDelegate.ForwardedKeysAreBound | hocus/appdelegate.swift:142-216 | the key each handler sends is bound to the operation it is named for; only the window jump has none, and its space key is bound to nothing |
| AppDelegate.HandlersRunTheirPurpose | hocus/appdelegate.swift:142-216 | every handler but the window jump runs the operation it is named for; the window jump does nothing |
| AppDelegate.MenuMaskIsTheChord | hocus/appdelegate.swift:27-28 | `_modifiers` holds exactly the option and control flags, the same modifiers as the chord set `modifiers`, so a menu shortcut's chord is the table's chord |
| AppDelegate.MenuItem.constructor | hocus/appdelegate.swift:39 | a new item has the title, action and key equivalent given, and the command mask |
| AppDelegate.Menu.constructor | hocus/appdelegate.swift:57 | a new menu has no items |
| AppDelegate.Menu.AddItem | hocus/appdelegate.swift:38-41 | one new item is appended, with the title, action and key equivalent given and `_modifiers` as its modifier mask; the earlier items stay |
| AppDelegate.Menu.AddKeyEquivalentItem | hocus/appdelegate.swift:42-44 | the key-equivalent overload appends one item like `addItem(withTitle:action:key:)` given the key's string: its key equivalent is that string and its mask `_modifiers` |
| AppDelegate.Menu.DisableItems | hocus/appdelegate.swift:45-51 | every item after the third loses its action; the list, the first three actions and every other field stay |
| AppDelegate.CurrentWindow | hocus/appdelegate.swift:22-24 | the first focused window in order, and none exactly when no window is focused |
| AppDelegate.CurrentScreenIndex | hocus/appdelegate.swift:14-16 | the current window's screen, and 0 when there is no current window |

## Left out

- The accessibility reads and writes, `Application`, `activate` and its
  busy-wait loop (Sources/hocus/logic.swift:307): they are I/O. Windows are
  snapshots, focus is the oracle `accepts`, and writes are log entries.
- `CGWindowListCopyWindowInfo`, `NSScreen.screens` and the PID dedupe
  `Array(Set(...))`: they are I/O. The applications and displays are given
  as sequences. The dedupe's order is unspecified, so no order is claimed
  for the unsorted full-window return.
- The CGEvent synthesis of `press` / `toggleFullScreen` and `sleep`: they
  are foreign calls and timing. A toggle is one log entry.
- The side effects of the `.next` / `.back` branch: fitting the window into
  `.five`, and leaving full screen on the destination screen. They are
  accessibility writes. Only the returned rectangle is modelled.
- Floating point: coordinates are reals, with no rounding or NaN.
- `sqrt` / `pow`: the nearest-screen fallback ranks by squared distance,
  which picks the same screen because the square root is monotone.
- `CGRect.contains` and `NSPointInRect`: containment is defined explicitly,
  as stated above.
- The AppKit flag constants and the default command mask of `NSMenuItem` are
  assumptions, as stated above.
- The status-bar menu construction, alerts, LaunchAtLogin, restart,
  `listenInput` and `print`: they are I/O. The menu's item list is modelled
  only as far as `addItem` and `disableItems` change it.
- The `description` strings of screens and of `Key`: they are only printed.
- WindowList.Largest: `sorted(by: { $0.area > $1.area })[0]` is an
  unspecified one of the largest windows when several tie. The model takes
  the first.
- ModifierFlags.Reduce: a `Set`'s iteration order is unspecified, so the
  fold takes the order as a sequence. `ReduceIsOrderIndependent` shows
  the order does not matter.
- KeyEquivalents.Raw: `f1` ... `f35` are one case `F(n)` with raw value
  0xF703 + n, rather than 35 names.
- Keys.Put: its ensures states the result as the given set plus the held
  modifiers. That the zero test only skips work, and that the function key
  is never inserted, are in `Keys.HeldFacts`.
- WindowList.GetAllWindows: the sort uses the corrected order
  `Windows.IsPrior`, not the written clause of Sources/hocus/window.swift:93,
  which never holds. Under the written order the sort is not well defined
  (`Windows.AsWrittenIsNotAWeakOrder`), so no sorted result is claimed for it.
- LegacyNavigation.LegacyGetAllWindows: the sort uses the corrected order
  `Windows.IsPrior`, not the written clause of Sources/hocus/logic.swift:32,
  for the same reason.
- Navigation.CycleWindows: the backward cycle steps by the wrap-around index
  `WrapIndex`, not by `Array.index` as written
  (Sources/hocus/screen.swift:229 and 243). The written candidates are
  `Navigation.PreviousCandidateAsWritten`, and
  `Navigation.PreviousCandidatesAsWritten` shows where they differ.
  `Navigation.Candidate` and `Navigation.TryCandidates` use the same
  corrected index.
- Sorting.Sort: it is a stable insertion sort. Swift's `sorted(by:)` does
  not promise stability, so the model's order among windows the order
  does not separate is one of the orders Swift may produce.
- AppDelegate.MenuMask: `Modifier([.option, .control])`
  (hocus/appdelegate.swift:28) is read as the option set's own initialiser
  from a sequence of its elements, applied to the flags `.option` and
  `.control`. The extension initialiser over `Set<Keycode>`
  (hocus/input/modifier.swift:12-15), modelled as `ModifierFlags.KeycodeMask`,
  is not the one this call resolves to.
- Geometry.Area: the `.next` / `.back` branch reads the current window and
  fits it into `.five` first, which can change the window list. The model
  takes the screen list as fixed.

## Findings

| source | as written | input that shows it | evidently intended | confidence | as-written member | corrected member |
|---|---|---|---|---|---|---|
| Sources/hocus/window.swift:93 | the height clause compares `w.size.height < w.size.height`, which never holds (also Sources/hocus/logic.swift:32) | two windows at (0, 0), both 100 wide, 100 and 200 tall: neither is prior to the other, whatever their labels, and sorting by the order is not well defined | the taller window first, `w.size.height < size.height` | high; not executed | Windows.AsWrittenIsNotAWeakOrder | Windows.IsPriorStrictWeakOrder |
| Sources/hocus/screen.swift:243 | for negative i, `count - (abs(i) % count) - 1` is one position too low | `index(-1)` on 3 windows is 1, not 2: `previousWindow` from the first window skips the last one | i modulo count in [0, count) | high; not executed | Navigation.PreviousCandidatesAsWritten | Navigation.CandidatesCoverTheList |

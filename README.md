# keynav: directional focus search, modelled in Dafny

compiz-keynav is a Compiz plugin. It moves keyboard focus to the nearest window
above, below, left or right of the active window. The repository holds two
generations of the search, and this project models both as the code is written:

- `LegacyKeynav` (keynav.c). `sendFocus` walks the screen's window list once.
  It skips the active window, windows that `isFocusableWindow` rejects, and
  windows that fail the lateral `withinBound` check. It keeps the window whose
  `getDistance` from the active window's top-left coordinate (`getStartPoint`)
  is smallest and strictly positive. The running best starts at the screen's
  width, for every direction. The handler always returns FALSE. When it chooses
  a window, it damages it, raises it and gives it input focus.
- `Keynav` (src/keynav.h, src/keynav.cpp). `NearestWindow` is a class. Its
  constant fields are `source`, `direction` and the screen size. Its mutable
  fields are `target` and `targetDistance`. `InspectWindow` ignores ineligible
  windows: the source itself, windows that are not focussable, viewable or
  mapped, shaded windows, desktop and dock windows, skip-taskbar windows,
  windows wholly off screen and windows on another desktop. For any other
  window it takes a distance of 0 or more when there is no target yet, or a
  strictly smaller distance than the present one. `Initiate` refuses to search
  from an override-redirect, desktop or dock window. Otherwise it lets one
  `NearestWindow` inspect every window and reports whether a target was found.
- `Directions`: the four directions, their two numeric encodings (the `SCAN_*`
  values 0, 1, 2, 4 of keynav.c and the `FocusDirection` enumerators 0 to 3),
  and the axis and sign table that both distance switches follow.
- `Wrappers`: `Option`, which stands for a window pointer that may be NULL.

Both searches are stated as a fold over the window list. `Scan` models the C
loop and `InspectAll` models the C++ inspections. The loop in `SendFocus` and
the class state in `NearestWindow` are proved equal to those folds. Lemmas then
characterise each fold's result. It is the earliest window in list order whose
distance is minimal among the windows the search may take. There is no result
exactly when no window may be taken.

Three things the search does not do:
- Distances are measured between top-left corners (`serverX`/`serverY`, `x()`/`y()`), not between centres.
- The C lateral gate asks whether either end of the candidate's span lies in the active window's closed span. It does not look at the candidate's centre. The C++ version has no lateral gate at all.
- Ties are kept by the first window in list order. There is no size-based tie-break. The C version rejects distance 0, and the C++ version accepts it.

`LegacyKeynav.IsFocusableWindow` is isFocusableWindow (keynav.c:59-77): it
rejects override-redirect, dock, desktop, skip-pager, shaded and non-viewable
windows. `Keynav.Ignored` is the exclusion condition of inspectWindow
(src/keynav.cpp:84-96). Both are predicates; the rows for `LegacyKeynav.SendFocus`,
`Keynav.NearestWindow.InspectWindow` and `Keynav.NearestWindow.Result` state
what the searches promise about them.

Window identity is a pointer comparison in keynav.c and an `id()` comparison in
src/keynav.cpp. Both are modelled as equality of an `id` field.

## Model

| member | source | states |
|---|---|---|
| `Directions.FocusOrdinal` | src/keynav.h:26-31 | each direction's enumerator value is below 4, and decoding it gives the same direction back |
| `Directions.FromFocusOrdinal` | src/keynav.h:26-31 | exactly the values 0..3 name a FocusDirection |
| `Directions.ScanCode` | keynav.c:6-9 | the SCAN_* values are 0, 1, 2 and 4 (never 3), and each decodes back to its direction |
| `Directions.FromScanCode` | keynav.c:35-57 | the switches of getDistance/getStartPoint match exactly the values 0, 1, 2 and 4 |
| `Directions.EncodingsAgree` | src/keynav.h:26-31 | the enumerator and SCAN_* encodings name the same four directions in the same order: enumerator n is SCAN code n, except UP, which is 3 against 4 |
| `Directions.AheadOpposite` | keynav.c:35-46 | reversing the direction negates the offset (Left against Right, Up against Down) on the same axis |
| `LegacyKeynav.GetDistance` | keynav.c:35-46 | the distance is the window's signed offset from the start point along the axis of travel: X for Left/Right, Y for Up/Down, positive ahead |
| `LegacyKeynav.GetDistanceForCode` | keynav.c:35-46 | the switch over the integer direction yields a value exactly for the SCAN_* codes 0, 1, 2 and 4, and then the distance of that direction; any other code (3 among them) matches no case |
| `LegacyKeynav.GetStartPoint` | keynav.c:48-57 | the start point is the coordinate from which the active window itself is at distance 0: its serverX for Left/Right and its serverY for Up/Down |
| `LegacyKeynav.WithinBound` | keynav.c:79-108 | a window whose lateral span strictly encloses the active one's on both sides fails; for non-negative sizes, the check passes iff the closed spans overlap and the window does not strictly enclose the active one |
| `LegacyKeynav.Consider` | keynav.c:135-144 | one loop step leaves the selection unchanged for a non-candidate, for distance <= 0 and for distance >= the present best; a candidate with 0 < distance < the present best becomes the selection at that distance; the best distance never grows |
| `LegacyKeynav.ScanSelectsFirstNearest` | keynav.c:126-146 | the loop's result is the earliest window in list order that is a candidate with 0 < distance < cap and minimal distance; there is no result iff no window qualifies, and then the best distance is still the cap |
| `LegacyKeynav.SendFocus` | keynav.c:110-156 | returns FALSE on every path; with no screen or no active window nothing gets focus; otherwise focus goes to the loop's selection, which is never the active window, is focusable, within bound, and has 0 < distance < screen width |
| `LegacyKeynav.WidthCapExcludesFar` | keynav.c:126 | in every direction, Up and Down included, a window at distance equal to or beyond the screen's width is never chosen |
| `LegacyKeynav.ScenarioPortraitScreen` | keynav.c:126-146 | on a screen 1024 pixels wide, a focusable window directly below the active one at distance 1100 is not chosen for Down |
| `LegacyKeynav.TieKeepsFirst` | keynav.c:141-144 | of two qualifying windows at the same distance, the one earlier in the list is kept |
| `LegacyKeynav.ScenarioDirectlyBelow` | keynav.c:133-146 | a window 100 pixels directly below the active window (which is itself in the list) is chosen for Down at distance 100 |
| `LegacyKeynav.ScenarioCoincidentRejected` | keynav.c:141 | a window with the active window's exact rectangle, alone in the list, is at distance 0 and is not chosen |
| `LegacyKeynav.CoincidentNeverChosen` | keynav.c:141 | in every direction, with any cap and any window list, a window whose top-left corner is the active window's is at distance 0 and is never chosen |
| `Keynav.DistanceFrom` | src/keynav.cpp:59-76 | the distance is the window's signed offset from the source along the axis of travel (Down = w.y - s.y, Left = s.x - w.x, Right = w.x - s.x, Up = s.y - w.y); a window at the source's position is at distance 0 |
| `Keynav.Inspect` | src/keynav.h:55-65 | an ignored window or one behind the source leaves the state unchanged; with a target, a window at an equal or larger distance changes nothing; a non-ignored window at distance >= 0 becomes the target when there is none or when it is strictly closer; a target, once set, stays set and its distance never grows; any change selects this window at its distance >= 0; the state invariant is preserved |
| `Keynav.InspectAllSelectsFirstNearest` | src/keynav.cpp:107-122 | after any sequence of inspections the target is the earliest accepted window with the minimal non-negative distance, targetDistance is its distance, and there is no target iff no window is accepted (then targetDistance is -1) |
| `Keynav.InspectAllDistanceNonIncreasing` | src/keynav.cpp:107-116 | once a target exists, further inspections keep a target and never increase targetDistance |
| `Keynav.NearestWindow.constructor` | src/keynav.cpp:41-57 | a fresh search has no target and targetDistance -1; source, direction and screen are fixed for its lifetime |
| `Keynav.NearestWindow.InspectWindow` | src/keynav.cpp:78-117 | records one inspection and keeps target/targetDistance equal to the fold over all inspections; excluded windows and windows at negative distance change nothing; once set, the target stays set and targetDistance stays >= 0 and does not grow |
| `Keynav.NearestWindow.Result` | src/keynav.h:67-72 | returns the current target, which is an inspected, non-ignored window other than the source, or None exactly when no inspected window was accepted |
| `Keynav.Initiate` | src/keynav.cpp:124-167 | returns false with no active window and, without searching, for an override-redirect, desktop or dock active window; otherwise it focuses the target of one NearestWindow that inspected every window, and returns true iff there is one |
| `Keynav.TieKeepsFirst` | src/keynav.cpp:108-115 | of two accepted windows at the same distance, the one inspected first stays the target |
| `Keynav.ZeroDistanceFirstWins` | src/keynav.cpp:107-111 | a non-ignored window at distance 0 is taken when there is no target, and a later window at distance 0 does not replace it |
| `Keynav.ScenarioNoLateralGate` | src/keynav.cpp:84-116 | a window far off to the side but 10 pixels lower is chosen for Down, because the rewrite has no lateral check |

## Left out

- Plugin glue is not modelled: the vtables, metadata, private indices, option get/set tables, key-code setup, the action binding in the C++ constructor and `KeyboardNavigationVTable::init`. standard.c is an empty plugin skeleton and is not modelled either.
- The focus side effects (`addWindowDamage`, `raiseWindow`, `moveInputFocusToWindow`, `moveInputFocusTo`, `activate`) are host calls. Each is modelled as the `focus` out-parameter, the window they would act on.
- The host's window list is a `seq` snapshot in stacking order. The `screen->windows` linked list and `forEachWindow` are not modelled. Finding the screen and the active window is host lookup; it is given as `Option` parameters.
- Host predicates and attribute masks (`isFocussable`, `isViewable`, `isMapped`, `shaded`, `onCurrentDesktop`, the type and state bits, `map_state`) are plain boolean fields.
- The global screen that `inspectWindow` consults is a constant field of `NearestWindow`, fixed at construction. This assumes the screen size does not change during one search.
- Debug output (`DEBUG`, `DEBUG_LOG`) is not modelled.
- The unused `collisions` vector of `NearestWindow` is not modelled.
- Only `GetDistanceForCode` takes an integer direction, and it returns None for codes other than 0, 1, 2 and 4. The searches take the closed `Direction` datatype, so the fall-through of getStartPoint and withinBound for other codes, and the unreachable `throw "Illegal State"`, are not modelled.
- C `int` overflow of `x + width` and of the distance subtractions is not modelled; coordinates are unbounded integers.

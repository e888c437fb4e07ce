/**
 * The first generation of the plugin (keynav.c): a C action handler that
 * walks the screen's window list once and keeps the window with the
 * smallest strictly positive distance from the active window's top-left
 * corner, among focusable windows that pass a lateral bound check.
 */
module LegacyKeynav {
  import opened Wrappers
  import opened Directions

  /**
   * A CompWindow as keynav.c reads it: its server geometry and the
   * attribute bits isFocusableWindow tests. `dock` and `desktop` are the
   * Dock and Desktop bits of wmType, `skipPager` and `shaded` bits of state,
   * and `viewable` says that attrib.map_state is IsViewable.
   */
  datatype CWindow = CWindow(
    id: nat,
    serverX: int, serverY: int, serverWidth: int, serverHeight: int,
    overrideRedirect: bool,
    dock: bool, desktop: bool,
    skipPager: bool, shaded: bool,
    viewable: bool)

  /** The screen found for the action's root window: its width and its window list, in stacking order. */
  datatype CScreen = CScreen(width: int, windows: seq<CWindow>)

  /** getDistance: the offset of the window's top-left corner from `start` along the axis of travel. */
  function GetDistance(d: Direction, start: int, w: CWindow): (r: int)
    ensures r == Ahead(d, start, AxisCoord(d, w.serverX, w.serverY))
  {
    match d
    case Left => start - w.serverX
    case Right => w.serverX - start
    case Up => start - w.serverY
    case Down => w.serverY - start
  }

  /**
   * getDistance as the C switch over the integer direction: a SCAN_* value
   * selects its case, and any other value (3 among them) matches none, so the
   * C function falls off its end without a value.
   */
  function GetDistanceForCode(direction: int, start: int, w: CWindow): (r: Option<int>)
    ensures r.Some? <==> FromScanCode(direction).Some?
    ensures r.Some? ==> r.value == GetDistance(FromScanCode(direction).value, start, w)
  {
    if direction == 1 then Some(start - w.serverX)
    else if direction == 2 then Some(w.serverX - start)
    else if direction == 4 then Some(start - w.serverY)
    else if direction == 0 then Some(w.serverY - start)
    else None
  }

  /** getStartPoint: the point on the axis of travel from which distances are measured. */
  function GetStartPoint(d: Direction, a: CWindow): (r: int)
    ensures GetDistance(d, r, a) == 0
  {
    match d
    case Right | Left => a.serverX
    case Up | Down => a.serverY
  }

  /** isFocusableWindow. */
  predicate IsFocusableWindow(w: CWindow)
  {
    if w.overrideRedirect then false
    else if w.dock || w.desktop then false
    else if w.skipPager then false
    else if w.shaded then false
    else if !w.viewable then false
    else true
  }

  /** The closed span [start, start + size] a window covers across the axis of travel. */
  function LateralStart(d: Direction, w: CWindow): int
  {
    if IsHorizontal(d) then w.serverY else w.serverX
  }

  function LateralEnd(d: Direction, w: CWindow): int
  {
    if IsHorizontal(d) then w.serverY + w.serverHeight else w.serverX + w.serverWidth
  }

  /** The two closed lateral spans share at least one point. */
  predicate SpansOverlap(d: Direction, a: CWindow, w: CWindow)
  {
    LateralStart(d, w) <= LateralEnd(d, a) && LateralStart(d, a) <= LateralEnd(d, w)
  }

  /** The window's lateral span sticks out of the active window's on both sides. */
  predicate StrictlyEncloses(d: Direction, a: CWindow, w: CWindow)
  {
    LateralStart(d, w) < LateralStart(d, a) && LateralEnd(d, a) < LateralEnd(d, w)
  }

  predicate NonNegativeSize(w: CWindow)
  {
    w.serverWidth >= 0 && w.serverHeight >= 0
  }

  /**
   * withinBound: one end of the window's span across the axis of travel lies
   * inside the active window's closed span. For windows of non-negative size
   * this is overlap of the two spans, except that a window enclosing the
   * active one on both sides is turned away.
   */
  function WithinBound(d: Direction, a: CWindow, w: CWindow): (r: bool)
    ensures StrictlyEncloses(d, a, w) ==> !r
    ensures NonNegativeSize(a) && NonNegativeSize(w) ==>
              (r <==> SpansOverlap(d, a, w) && !StrictlyEncloses(d, a, w))
  {
    var (activeRangeStart, activeRangeEnd, windowRangeStart, windowRangeEnd) :=
      match d
      case Left | Right =>
        (a.serverY, a.serverY + a.serverHeight, w.serverY, w.serverY + w.serverHeight)
      case Up | Down =>
        (a.serverX, a.serverX + a.serverWidth, w.serverX, w.serverX + w.serverWidth);
    (windowRangeStart >= activeRangeStart && windowRangeStart <= activeRangeEnd) ||
    (windowRangeEnd >= activeRangeStart && windowRangeEnd <= activeRangeEnd)
  }

  /** The test sendFocus applies before it measures a window. */
  predicate IsCandidate(d: Direction, a: CWindow, w: CWindow)
  {
    w.id != a.id && IsFocusableWindow(w) && WithinBound(d, a, w)
  }

  /** The distance sendFocus computes for a window. */
  function Distance(d: Direction, a: CWindow, w: CWindow): int
  {
    GetDistance(d, GetStartPoint(d, a), w)
  }

  /** The locals selectedWindow and selectedDistance of sendFocus. */
  datatype Selection = Selection(window: Option<CWindow>, distance: int)

  /** One iteration of the loop in sendFocus. */
  function Consider(d: Direction, a: CWindow, sel: Selection, w: CWindow): (r: Selection)
    ensures !IsCandidate(d, a, w) ==> r == sel
    ensures Distance(d, a, w) <= 0 || Distance(d, a, w) >= sel.distance ==> r == sel
    ensures IsCandidate(d, a, w) && 0 < Distance(d, a, w) < sel.distance ==>
              r == Selection(Some(w), Distance(d, a, w))
    ensures r.distance <= sel.distance
  {
    if IsCandidate(d, a, w) then
      var distance := Distance(d, a, w);
      if distance > 0 && distance < sel.distance then Selection(Some(w), distance) else sel
    else
      sel
  }

  /** The selection after the loop has visited `ws`, starting from no window at distance `cap`. */
  function Scan(d: Direction, a: CWindow, cap: int, ws: seq<CWindow>): Selection
    decreases |ws|
  {
    if ws == [] then Selection(None, cap)
    else Consider(d, a, Scan(d, a, cap, ws[..|ws| - 1]), ws[|ws| - 1])
  }

  /** A window sendFocus may choose: a candidate strictly ahead and nearer than the cap. */
  ghost predicate Qualifies(d: Direction, a: CWindow, cap: int, w: CWindow)
  {
    IsCandidate(d, a, w) && 0 < Distance(d, a, w) < cap
  }

  /** ws[k] qualifies, no qualifying window is nearer, and every earlier qualifying window is farther. */
  ghost predicate IsFirstNearest(d: Direction, a: CWindow, cap: int, ws: seq<CWindow>, k: int)
  {
    0 <= k < |ws| && Qualifies(d, a, cap, ws[k]) &&
    (forall j :: 0 <= j < |ws| && Qualifies(d, a, cap, ws[j]) ==> Distance(d, a, ws[k]) <= Distance(d, a, ws[j])) &&
    (forall j :: 0 <= j < k && Qualifies(d, a, cap, ws[j]) ==> Distance(d, a, ws[k]) < Distance(d, a, ws[j]))
  }

  /**
   * The loop keeps the earliest window of minimal strictly positive distance
   * below the cap, and keeps none exactly when no window qualifies.
   */
  lemma {:induction false} ScanSelectsFirstNearest(d: Direction, a: CWindow, cap: int, ws: seq<CWindow>)
    ensures Scan(d, a, cap, ws).window.None? <==> forall j :: 0 <= j < |ws| ==> !Qualifies(d, a, cap, ws[j])
    ensures Scan(d, a, cap, ws).window.None? ==> Scan(d, a, cap, ws).distance == cap
    ensures Scan(d, a, cap, ws).window.Some? ==>
              exists k :: IsFirstNearest(d, a, cap, ws, k) && ws[k] == Scan(d, a, cap, ws).window.value &&
                          Scan(d, a, cap, ws).distance == Distance(d, a, ws[k])
  {
    if ws != [] {
      var n := |ws| - 1;
      var init, w := ws[..n], ws[n];
      assert ws == init + [w];
      ScanSelectsFirstNearest(d, a, cap, init);
      var p := Scan(d, a, cap, init);
      if p.window.None? {
        if Qualifies(d, a, cap, w) {
          assert IsFirstNearest(d, a, cap, ws, n);
        } else {
          forall j | 0 <= j < |ws| ensures !Qualifies(d, a, cap, ws[j]) {
            if j < n { assert ws[j] == init[j]; }
          }
        }
      } else {
        var k :| IsFirstNearest(d, a, cap, init, k) && init[k] == p.window.value && p.distance == Distance(d, a, init[k]);
        assert Qualifies(d, a, cap, ws[k]);
        if Qualifies(d, a, cap, w) && Distance(d, a, w) < p.distance {
          forall j | 0 <= j < |ws| && Qualifies(d, a, cap, ws[j])
            ensures Distance(d, a, w) <= Distance(d, a, ws[j])
          {
            if j < n { assert ws[j] == init[j]; }
          }
          assert IsFirstNearest(d, a, cap, ws, n);
        } else {
          forall j | 0 <= j < |ws| && Qualifies(d, a, cap, ws[j])
            ensures Distance(d, a, ws[k]) <= Distance(d, a, ws[j])
          {
            if j < n { assert ws[j] == init[j]; }
          }
          forall j | 0 <= j < k && Qualifies(d, a, cap, ws[j])
            ensures Distance(d, a, ws[k]) < Distance(d, a, ws[j])
          {
            assert ws[j] == init[j];
          }
          assert IsFirstNearest(d, a, cap, ws, k);
        }
      }
    }
  }

  /**
   * sendFocus for one direction. `screen` is the screen found for the
   * action's root window and `active` the display's active window found on
   * it (None for a NULL pointer). `focus` is the window that is damaged,
   * raised and given input focus; the handler itself always reports FALSE.
   */
  method SendFocus(screen: Option<CScreen>, active: Option<CWindow>, d: Direction)
    returns (handled: bool, focus: Option<CWindow>)
    ensures !handled
    ensures screen.None? || active.None? ==> focus.None?
    ensures screen.Some? && active.Some? ==>
              focus == Scan(d, active.value, screen.value.width, screen.value.windows).window
    ensures screen.Some? && active.Some? && focus.Some? ==>
              focus.value in screen.value.windows &&
              focus.value.id != active.value.id &&
              IsFocusableWindow(focus.value) &&
              WithinBound(d, active.value, focus.value) &&
              0 < Distance(d, active.value, focus.value) < screen.value.width
  {
    focus := None;
    if screen.None? {
      return false, None;
    }
    var selectedDistance := screen.value.width;
    var selectedWindow: Option<CWindow> := None;
    if active.Some? {
      var activeWindow := active.value;
      var start := GetStartPoint(d, activeWindow);
      var windows := screen.value.windows;
      var i := 0;
      while i < |windows|
        invariant 0 <= i <= |windows|
        invariant Selection(selectedWindow, selectedDistance) == Scan(d, activeWindow, screen.value.width, windows[..i])
      {
        var window := windows[i];
        if window.id != activeWindow.id && IsFocusableWindow(window) && WithinBound(d, activeWindow, window) {
          var distance := GetDistance(d, start, window);
          if distance > 0 && distance < selectedDistance {
            selectedDistance := distance;
            selectedWindow := Some(window);
          }
        }
        assert windows[..i + 1][..i] == windows[..i];
        i := i + 1;
      }
      assert windows[..i] == windows;
      ScanSelectsFirstNearest(d, activeWindow, screen.value.width, windows);
      focus := selectedWindow;
    }
    return false, focus;
  }

  /**
   * The running best starts at the screen's width whatever the direction, so
   * no window at a distance of the width or more is ever chosen, for Up and
   * Down as well.
   */
  lemma WidthCapExcludesFar(s: CScreen, a: CWindow, d: Direction, w: CWindow)
    requires w in s.windows
    requires Distance(d, a, w) >= s.width
    ensures Scan(d, a, s.width, s.windows).window != Some(w)
  {
    ScanSelectsFirstNearest(d, a, s.width, s.windows);
  }

  /**
   * On a 1024 pixel wide screen (1600 pixels tall), a window 1100 pixels
   * below the active one is still on screen, directly below it and
   * focusable, yet Down does not reach it.
   */
  lemma ScenarioPortraitScreen()
    ensures
      var source := CWindow(1, 100, 100, 50, 50, false, false, false, false, false, true);
      var far := CWindow(2, 100, 1200, 50, 50, false, false, false, false, false, true);
      IsCandidate(Down, source, far) && Distance(Down, source, far) == 1100 &&
      Scan(Down, source, 1024, [source, far]).window.None?
  {
    var source := CWindow(1, 100, 100, 50, 50, false, false, false, false, false, true);
    var far := CWindow(2, 100, 1200, 50, 50, false, false, false, false, false, true);
    assert [source][..0] == [];
    assert Scan(Down, source, 1024, [source]) == Selection(None, 1024);
    assert [source, far][..1] == [source];
  }

  /** Equal distances: the window met first in the list is the one kept. */
  lemma TieKeepsFirst(d: Direction, a: CWindow, cap: int, w1: CWindow, w2: CWindow)
    requires Qualifies(d, a, cap, w1) && Qualifies(d, a, cap, w2)
    requires Distance(d, a, w1) == Distance(d, a, w2)
    ensures Scan(d, a, cap, [w1, w2]).window == Some(w1)
  {
    assert [w1][..0] == [];
    assert Scan(d, a, cap, [w1]) == Selection(Some(w1), Distance(d, a, w1));
    assert [w1, w2][..1] == [w1];
  }

  /** A window directly below, 100 pixels down, is chosen for Down. */
  lemma ScenarioDirectlyBelow()
    ensures
      var source := CWindow(1, 100, 100, 50, 50, false, false, false, false, false, true);
      var below := CWindow(2, 100, 200, 50, 50, false, false, false, false, false, true);
      Scan(Down, source, 1280, [source, below]) == Selection(Some(below), 100)
  {
    var source := CWindow(1, 100, 100, 50, 50, false, false, false, false, false, true);
    var below := CWindow(2, 100, 200, 50, 50, false, false, false, false, false, true);
    assert [source][..0] == [];
    assert Scan(Down, source, 1280, [source]) == Selection(None, 1280);
    assert [source, below][..1] == [source];
  }

  /** A window with exactly the active window's rectangle is at distance 0 and is never chosen. */
  lemma ScenarioCoincidentRejected(d: Direction)
    ensures
      var source := CWindow(1, 100, 100, 50, 50, false, false, false, false, false, true);
      var twin := CWindow(2, 100, 100, 50, 50, false, false, false, false, false, true);
      Distance(d, source, twin) == 0 && Scan(d, source, 1280, [twin]).window.None?
  {
    var twin := CWindow(2, 100, 100, 50, 50, false, false, false, false, false, true);
    assert [twin][..0] == [];
  }

  /** A window whose top-left corner is the active window's is at distance 0 and is never chosen, from any list. */
  lemma CoincidentNeverChosen(d: Direction, a: CWindow, cap: int, ws: seq<CWindow>, w: CWindow)
    requires w.serverX == a.serverX && w.serverY == a.serverY
    ensures Distance(d, a, w) == 0
    ensures Scan(d, a, cap, ws).window != Some(w)
  {
    ScanSelectsFirstNearest(d, a, cap, ws);
  }
}

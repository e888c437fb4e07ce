/**
 * The C++ rewrite of the plugin (src/keynav.h, src/keynav.cpp). For each
 * request KeyboardNavigation::initiate builds one NearestWindow for the
 * active window and the direction, lets it inspect every window of the
 * screen, and moves input focus to the window it reports.
 */
module Keynav {
  import opened Wrappers
  import opened Directions

  /** CompWindow::Geometry: a rectangle in screen coordinates. */
  datatype Geometry = Geometry(x: int, y: int, width: int, height: int)

  /**
   * A CompWindow as the rewrite queries it. `x` and `y` are what x() and y()
   * return; `serverGeometry` is what serverGeometry() returns. `desktop` and
   * `dock` are the Desktop and Dock bits of type(), `skipTaskbar` the
   * SkipTaskbar bit of state(); the remaining flags are the answers of the
   * host predicates of the same names.
   */
  datatype Window = Window(
    id: nat,
    x: int, y: int,
    serverGeometry: Geometry,
    focussable: bool, viewable: bool, mapped: bool, shaded: bool,
    desktop: bool, dock: bool,
    skipTaskbar: bool,
    onCurrentDesktop: bool,
    overrideRedirect: bool)

  /** The size of the screen the plugin runs on (the global `screen`). */
  datatype ScreenSize = ScreenSize(width: int, height: int)

  /** The geometry lies wholly left of, above, right of or below the screen. */
  predicate OffScreen(g: Geometry, screen: ScreenSize)
  {
    g.x + g.width <= 0 ||
    g.y + g.height <= 0 ||
    g.x >= screen.width ||
    g.y >= screen.height
  }

  /** The condition under which inspectWindow ignores a window. */
  predicate Ignored(source: Window, screen: ScreenSize, w: Window)
  {
    w.id == source.id ||
    !w.focussable ||
    !w.viewable ||
    !w.mapped ||
    w.shaded ||
    (w.desktop || w.dock) ||
    w.skipTaskbar ||
    OffScreen(w.serverGeometry, screen) ||
    !w.onCurrentDesktop
  }

  /** NearestWindow::distanceFrom: how far w's position lies ahead of the source's. */
  function DistanceFrom(d: Direction, source: Window, w: Window): (r: int)
    ensures r == Ahead(d, AxisCoord(d, source.x, source.y), AxisCoord(d, w.x, w.y))
    ensures w.x == source.x && w.y == source.y ==> r == 0
  {
    match d
    case Down => w.y - source.y
    case Left => source.x - w.x
    case Right => w.x - source.x
    case Up => source.y - w.y
  }

  /** The fields target and targetDistance of a NearestWindow. */
  datatype Search = Search(target: Option<Window>, targetDistance: int)

  /** What the constructor sets: no target, distance -1. */
  const Fresh := Search(None, -1)

  /** The state invariant: a target is at a distance of at least 0; without one the distance is -1. */
  predicate WellFormed(s: Search)
  {
    (s.target.Some? ==> s.targetDistance >= 0) && (s.target.None? ==> s.targetDistance == -1)
  }

  /** A window inspectWindow may take: not ignored and not behind the source. */
  ghost predicate Accepts(d: Direction, source: Window, screen: ScreenSize, w: Window)
  {
    !Ignored(source, screen, w) && DistanceFrom(d, source, w) >= 0
  }

  /** The effect of inspectWindow on the state. */
  function Inspect(d: Direction, source: Window, screen: ScreenSize, s: Search, w: Window): (r: Search)
    ensures Ignored(source, screen, w) ==> r == s
    ensures DistanceFrom(d, source, w) < 0 ==> r == s
    ensures s.target.Some? && DistanceFrom(d, source, w) >= s.targetDistance ==> r == s
    ensures s.target.Some? ==> r.target.Some? && r.targetDistance <= s.targetDistance
    ensures r != s ==> r.target == Some(w) && r.targetDistance == DistanceFrom(d, source, w) >= 0
    ensures !Ignored(source, screen, w) && DistanceFrom(d, source, w) >= 0 &&
            (s.target.None? || DistanceFrom(d, source, w) < s.targetDistance) ==>
              r == Search(Some(w), DistanceFrom(d, source, w))
    ensures WellFormed(s) ==> WellFormed(r)
  {
    if Ignored(source, screen, w) then s
    else
      var distance := DistanceFrom(d, source, w);
      if distance >= 0 then
        if s.target.None? then Search(Some(w), distance)
        else if distance < s.targetDistance then Search(Some(w), distance)
        else s
      else s
  }

  /** The state of a fresh NearestWindow after inspecting `ws` in order. */
  function InspectAll(d: Direction, source: Window, screen: ScreenSize, ws: seq<Window>): Search
    decreases |ws|
  {
    if ws == [] then Fresh
    else Inspect(d, source, screen, InspectAll(d, source, screen, ws[..|ws| - 1]), ws[|ws| - 1])
  }

  /** ws[k] is accepted, no accepted window is nearer, and every earlier accepted window is farther. */
  ghost predicate IsFirstNearest(d: Direction, source: Window, screen: ScreenSize, ws: seq<Window>, k: int)
  {
    0 <= k < |ws| && Accepts(d, source, screen, ws[k]) &&
    (forall j :: 0 <= j < |ws| && Accepts(d, source, screen, ws[j]) ==>
       DistanceFrom(d, source, ws[k]) <= DistanceFrom(d, source, ws[j])) &&
    (forall j :: 0 <= j < k && Accepts(d, source, screen, ws[j]) ==>
       DistanceFrom(d, source, ws[k]) < DistanceFrom(d, source, ws[j]))
  }

  /**
   * After a sequence of inspections the target is the earliest accepted
   * window of minimal distance, and there is none exactly when no window
   * is accepted.
   */
  lemma {:induction false} InspectAllSelectsFirstNearest(d: Direction, source: Window, screen: ScreenSize, ws: seq<Window>)
    ensures WellFormed(InspectAll(d, source, screen, ws))
    ensures InspectAll(d, source, screen, ws).target.None? <==>
              forall j :: 0 <= j < |ws| ==> !Accepts(d, source, screen, ws[j])
    ensures InspectAll(d, source, screen, ws).target.Some? ==>
              exists k :: IsFirstNearest(d, source, screen, ws, k) &&
                          ws[k] == InspectAll(d, source, screen, ws).target.value &&
                          InspectAll(d, source, screen, ws).targetDistance == DistanceFrom(d, source, ws[k])
  {
    if ws != [] {
      var n := |ws| - 1;
      var init, w := ws[..n], ws[n];
      InspectAllSelectsFirstNearest(d, source, screen, init);
      var p := InspectAll(d, source, screen, init);
      assert InspectAll(d, source, screen, ws) == Inspect(d, source, screen, p, w);
      if p.target.None? {
        ExtendWithoutTarget(d, source, screen, ws);
      } else {
        var k :| IsFirstNearest(d, source, screen, init, k) && init[k] == p.target.value &&
                 p.targetDistance == DistanceFrom(d, source, init[k]);
        ExtendWithTarget(d, source, screen, ws, k);
      }
    }
  }

  /** The inductive step of InspectAllSelectsFirstNearest when no earlier window was accepted. */
  lemma ExtendWithoutTarget(d: Direction, source: Window, screen: ScreenSize, ws: seq<Window>)
    requires ws != []
    requires forall j :: 0 <= j < |ws| - 1 ==> !Accepts(d, source, screen, ws[j])
    ensures Accepts(d, source, screen, ws[|ws| - 1]) ==> IsFirstNearest(d, source, screen, ws, |ws| - 1)
    ensures !Accepts(d, source, screen, ws[|ws| - 1]) ==> forall j :: 0 <= j < |ws| ==> !Accepts(d, source, screen, ws[j])
  {
  }

  /** The inductive step of InspectAllSelectsFirstNearest when ws[k] was the earliest nearest so far. */
  lemma ExtendWithTarget(d: Direction, source: Window, screen: ScreenSize, ws: seq<Window>, k: int)
    requires ws != []
    requires IsFirstNearest(d, source, screen, ws[..|ws| - 1], k)
    ensures var w := ws[|ws| - 1];
            if Accepts(d, source, screen, w) && DistanceFrom(d, source, w) < DistanceFrom(d, source, ws[k])
            then IsFirstNearest(d, source, screen, ws, |ws| - 1)
            else IsFirstNearest(d, source, screen, ws, k)
  {
  }

  /** Once there is a target, later inspections never increase its distance. */
  lemma {:induction false} InspectAllDistanceNonIncreasing(d: Direction, source: Window, screen: ScreenSize,
                                                          ws: seq<Window>, more: seq<Window>)
    requires InspectAll(d, source, screen, ws).target.Some?
    ensures InspectAll(d, source, screen, ws + more).target.Some?
    ensures InspectAll(d, source, screen, ws + more).targetDistance <= InspectAll(d, source, screen, ws).targetDistance
    decreases |more|
  {
    if more == [] {
      assert ws + more == ws;
    } else {
      var n := |more| - 1;
      var all := ws + more;
      assert all[..|all| - 1] == ws + more[..n];
      InspectAllDistanceNonIncreasing(d, source, screen, ws, more[..n]);
      assert InspectAll(d, source, screen, all) ==
             Inspect(d, source, screen, InspectAll(d, source, screen, ws + more[..n]), all[|all| - 1]);
    }
  }

  /**
   * NearestWindow: the state of one search. `source`, `direction` and the
   * screen are fixed at construction; `target` and `targetDistance` hold
   * the best window so far and nothing else is remembered. The ghost field
   * `inspected` records the windows passed to InspectWindow, so that the
   * state can be stated as a function of them.
   */
  class NearestWindow {
    const source: Window
    const direction: Direction
    const screen: ScreenSize
    var target: Option<Window>
    var targetDistance: int
    ghost var inspected: seq<Window>

    ghost predicate Valid()
      reads this
    {
      Search(target, targetDistance) == InspectAll(direction, source, screen, inspected) &&
      WellFormed(Search(target, targetDistance))
    }

    constructor (window: Window, direction: Direction, screen: ScreenSize)
      ensures Valid()
      ensures this.source == window && this.direction == direction && this.screen == screen
      ensures target == None && targetDistance == -1
      ensures inspected == []
    {
      source := window;
      target := None;
      targetDistance := -1;
      this.direction := direction;
      this.screen := screen;
      inspected := [];
    }

    /** inspectWindow: take `window` as the target if it is eligible and closer than the present one. */
    method InspectWindow(window: Window)
      requires Valid()
      modifies this
      ensures Valid()
      ensures inspected == old(inspected) + [window]
      ensures Search(target, targetDistance) == Inspect(direction, source, screen, old(Search(target, targetDistance)), window)
      ensures Ignored(source, screen, window) ==> target == old(target) && targetDistance == old(targetDistance)
      ensures DistanceFrom(direction, source, window) < 0 ==> target == old(target) && targetDistance == old(targetDistance)
      ensures old(target).Some? ==> target.Some? && 0 <= targetDistance <= old(targetDistance)
    {
      inspected := inspected + [window];
      assert inspected[..|inspected| - 1] == old(inspected);
      var sg := window.serverGeometry;
      if window.id == source.id ||
         !window.focussable ||
         !window.viewable ||
         !window.mapped ||
         window.shaded ||
         (window.desktop || window.dock) ||
         window.skipTaskbar ||
         (sg.x + sg.width <= 0 ||
          sg.y + sg.height <= 0 ||
          sg.x >= screen.width ||
          sg.y >= screen.height) ||
         !window.onCurrentDesktop
      {
        return;
      }
      var distance := DistanceFrom(direction, source, window);
      if distance >= 0 {
        if target == None {
          target := Some(window);
          targetDistance := distance;
        } else if distance < targetDistance {
          target := Some(window);
          targetDistance := distance;
        }
      }
    }

    /** result: the currently selected closest window, or None. */
    method Result() returns (r: Option<Window>)
      requires Valid()
      ensures r == target
      ensures r == InspectAll(direction, source, screen, inspected).target
      ensures r.Some? ==> r.value in inspected && !Ignored(source, screen, r.value) && r.value.id != source.id
      ensures r.None? <==> forall j :: 0 <= j < |inspected| ==> !Accepts(direction, source, screen, inspected[j])
    {
      InspectAllSelectsFirstNearest(direction, source, screen, inspected);
      r := target;
    }
  }

  /** The active windows from which initiate refuses to search. */
  predicate RefusedSource(w: Window)
  {
    w.overrideRedirect || w.desktop || w.dock
  }

  /**
   * KeyboardNavigation::initiate for one direction. `active` is the window
   * the screen reports as active (None when there is none), `windows` the
   * screen's window list in the order forEachWindow visits it. `focus` is
   * the window that is given input focus and activated.
   */
  method Initiate(active: Option<Window>, direction: Direction, screen: ScreenSize, windows: seq<Window>)
    returns (found: bool, focus: Option<Window>)
    ensures found <==> focus.Some?
    ensures active.None? ==> !found
    ensures active.Some? && RefusedSource(active.value) ==> !found
    ensures active.Some? && !RefusedSource(active.value) ==>
              focus == InspectAll(direction, active.value, screen, windows).target
    ensures active.Some? && focus.Some? ==>
              focus.value in windows && focus.value.id != active.value.id && !Ignored(active.value, screen, focus.value)
  {
    if active.Some? {
      var window := active.value;
      if window.overrideRedirect || window.desktop || window.dock {
        return false, None;
      }
      var nearestWindow := new NearestWindow(window, direction, screen);
      var i := 0;
      while i < |windows|
        invariant 0 <= i <= |windows|
        invariant nearestWindow.Valid()
        invariant nearestWindow.inspected == windows[..i]
      {
        nearestWindow.InspectWindow(windows[i]);
        assert windows[..i + 1] == windows[..i] + [windows[i]];
        i := i + 1;
      }
      assert windows[..i] == windows;
      var focusWindow := nearestWindow.Result();
      if focusWindow != None {
        return true, focusWindow;
      }
    }
    return false, None;
  }

  /** Equal distances: the window inspected first stays the target. */
  lemma TieKeepsFirst(d: Direction, source: Window, screen: ScreenSize, w1: Window, w2: Window)
    requires Accepts(d, source, screen, w1) && Accepts(d, source, screen, w2)
    requires DistanceFrom(d, source, w1) == DistanceFrom(d, source, w2)
    ensures InspectAll(d, source, screen, [w1, w2]).target == Some(w1)
  {
    assert [w1][..0] == [];
    assert InspectAll(d, source, screen, [w1]) == Search(Some(w1), DistanceFrom(d, source, w1));
    assert [w1, w2][..1] == [w1];
  }

  /** A window at distance 0 is taken when nothing has been found yet, and kept against later ones at 0. */
  lemma ZeroDistanceFirstWins(d: Direction, source: Window, screen: ScreenSize, w1: Window, w2: Window)
    requires !Ignored(source, screen, w1) && DistanceFrom(d, source, w1) == 0
    requires DistanceFrom(d, source, w2) == 0
    ensures InspectAll(d, source, screen, [w1]) == Search(Some(w1), 0)
    ensures InspectAll(d, source, screen, [w1, w2]) == Search(Some(w1), 0)
  {
    assert [w1][..0] == [];
    assert [w1, w2][..1] == [w1];
  }

  /**
   * The rewrite has no lateral gate: for Down, a window far off to the side
   * but 10 pixels lower is taken.
   */
  lemma ScenarioNoLateralGate()
    ensures
      var screen := ScreenSize(1920, 1080);
      var source := Window(1, 100, 100, Geometry(100, 100, 50, 50), true, true, true, false, false, false, false, true, false);
      var aside := Window(2, 1500, 110, Geometry(1500, 110, 50, 50), true, true, true, false, false, false, false, true, false);
      InspectAll(Down, source, screen, [source, aside]) == Search(Some(aside), 10)
  {
    var screen := ScreenSize(1920, 1080);
    var source := Window(1, 100, 100, Geometry(100, 100, 50, 50), true, true, true, false, false, false, false, true, false);
    assert [source][..0] == [];
    assert InspectAll(Down, source, screen, [source]) == Fresh;
    var aside := Window(2, 1500, 110, Geometry(1500, 110, 50, 50), true, true, true, false, false, false, false, true, false);
    assert [source, aside][..1] == [source];
  }
}

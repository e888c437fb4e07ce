/**
 * The four travel directions of keyboard navigation, their numeric encodings
 * in the two generations of the plugin, and the axis table that both
 * distance functions follow.
 */
module Directions {
  import opened Wrappers

  /** FocusDirection in the C++ rewrite; SCAN_DOWN .. SCAN_UP in the C plugin. */
  datatype Direction = Down | Left | Right | Up

  /** The enumerator value of FocusDirection: FOCUS_DOWN .. FOCUS_UP are 0 .. 3. */
  function FocusOrdinal(d: Direction): (n: nat)
    ensures n < 4
    ensures FromFocusOrdinal(n) == Some(d)
  {
    match d
    case Down => 0
    case Left => 1
    case Right => 2
    case Up => 3
  }

  /** The FocusDirection with a given enumerator value, if there is one. */
  function FromFocusOrdinal(n: int): (r: Option<Direction>)
    ensures r.Some? <==> 0 <= n < 4
  {
    if n == 0 then Some(Down)
    else if n == 1 then Some(Left)
    else if n == 2 then Some(Right)
    else if n == 3 then Some(Up)
    else None
  }

  /** The SCAN_* constant keynav.c uses for a direction: 0, 1, 2 and 4 (there is no 3). */
  function ScanCode(d: Direction): (n: nat)
    ensures n <= 4 && n != 3
    ensures FromScanCode(n) == Some(d)
  {
    match d
    case Down => 0
    case Left => 1
    case Right => 2
    case Up => 4
  }

  /** The direction a SCAN_* value selects in the switches of keynav.c; any other value matches no case. */
  function FromScanCode(n: int): (r: Option<Direction>)
    ensures r.Some? <==> n in {0, 1, 2, 4}
  {
    if n == 0 then Some(Down)
    else if n == 1 then Some(Left)
    else if n == 2 then Some(Right)
    else if n == 4 then Some(Up)
    else None
  }

  /** Every enumerator value names exactly one direction, and the two encodings agree on which. */
  lemma EncodingsAgree(n: int)
    requires 0 <= n < 4
    ensures FromFocusOrdinal(n).Some?
    ensures FocusOrdinal(FromFocusOrdinal(n).value) == n
    ensures FromScanCode(ScanCode(FromFocusOrdinal(n).value)) == FromFocusOrdinal(n)
    ensures ScanCode(FromFocusOrdinal(n).value) == (if n == 3 then 4 else n)
  {
  }

  /** Left and Right travel along the X axis, Up and Down along the Y axis. */
  predicate IsHorizontal(d: Direction)
  {
    d.Left? || d.Right?
  }

  /** Right and Down travel towards larger screen coordinates. */
  predicate Increasing(d: Direction)
  {
    d.Right? || d.Down?
  }

  function Opposite(d: Direction): (r: Direction)
    ensures r != d
    ensures IsHorizontal(r) == IsHorizontal(d)
    ensures Increasing(r) != Increasing(d)
  {
    match d
    case Down => Up
    case Left => Right
    case Right => Left
    case Up => Down
  }

  /** The coordinate of a point (x, y) on the axis of travel. */
  function AxisCoord(d: Direction, x: int, y: int): int
  {
    if IsHorizontal(d) then x else y
  }

  /**
   * How far `to` lies ahead of `from` when moving in direction d: positive
   * ahead, negative behind. This is the one sign table that both
   * generations of the distance function spell out as a switch.
   */
  function Ahead(d: Direction, from: int, to: int): int
  {
    if Increasing(d) then to - from else from - to
  }

  /** Reversing the direction negates the offset and keeps the axis. */
  lemma AheadOpposite(d: Direction, from: int, to: int, x: int, y: int)
    ensures Ahead(Opposite(d), from, to) == -Ahead(d, from, to)
    ensures AxisCoord(Opposite(d), x, y) == AxisCoord(d, x, y)
    ensures Opposite(Opposite(d)) == d
  {
  }
}

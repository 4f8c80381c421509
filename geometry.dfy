/** Board geometry of the draughts engine: the grid size, the two directions a
    piece can advance in, the four diagonal steps and board coordinates. */
module Geometry {

  const ROWS: int := 8
  const COLS: int := 8

  /** The direction a piece advances in. Its value is the row offset of one
      step: UP goes toward row 0, DOWN toward row ROWS - 1. */
  datatype Direction = Up | Down {
    function Value(): (v: int)
      ensures v == -1 || v == 1
      ensures v < 0 <==> Up?
    {
      if Up? then -1 else 1
    }
  }

  /** The source's Direction enum also declares LEFT = -1 and RIGHT = 1; an
      enum member whose value repeats an earlier one is an alias of it, so
      LEFT is UP and RIGHT is DOWN. As a column offset they still mean -1
      and +1. */
  const Left: Direction := Up
  const Right: Direction := Down

  /** The four diagonal steps, each a (row direction, column direction) pair. */
  datatype Move = UpLeft | UpRight | DownLeft | DownRight {
    function Value(): (v: (Direction, Direction))
      ensures v.0 == Up <==> this == UpLeft || this == UpRight
      ensures v.1 == Left <==> this == UpLeft || this == DownLeft
    {
      match this
      case UpLeft => (Up, Left)
      case UpRight => (Up, Right)
      case DownLeft => (Down, Left)
      case DownRight => (Down, Right)
    }
  }

  /** A board cell as a (row, column) value; the row grows downwards and
      (0, 0) is the top left corner. Nothing bounds the components. */
  datatype Coordinate = Coordinate(r: int, c: int)

  /** Coordinate.add: a new coordinate one diagonal step away. The receiver is
      a value and is left as it was. */
  function Add(coord: Coordinate, m: Move): (next: Coordinate)
    ensures next.r - coord.r == (if m == UpLeft || m == UpRight then -1 else 1)
    ensures next.c - coord.c == (if m == UpLeft || m == DownLeft then -1 else 1)
  {
    Coordinate(coord.r + m.Value().0.Value(), coord.c + m.Value().1.Value())
  }

  /** Coordinate.__eq__: equality of both components. */
  function SameCell(a: Coordinate, b: Coordinate): (same: bool)
    ensures same <==> a == b
  {
    a.r == b.r && a.c == b.c
  }

  /** Python's subscript on a list of length n: a negative index counts from
      the end. Any index outside [-n, n) raises IndexError. */
  function PyIndex(i: int, n: int): (k: int)
    requires 0 < n && -n <= i < n
    ensures 0 <= k < n
    ensures k == i % n
  {
    if i < 0 then i + n else i
  }

  /** The coordinates that can subscript the ROWS x COLS grid without raising. */
  predicate InIndexRange(coord: Coordinate) {
    -ROWS <= coord.r < ROWS && -COLS <= coord.c < COLS
  }

  /** Coordinate.check_valid: the in-bounds test. The valid coordinates are
      exactly those that subscript the grid without raising and without
      wrapping around to the far end. */
  function CheckValid(coord: Coordinate): (valid: bool)
    ensures valid <==> 0 <= coord.r < 8 && 0 <= coord.c < 8
    ensures valid <==>
      InIndexRange(coord) && PyIndex(coord.r, ROWS) == coord.r && PyIndex(coord.c, COLS) == coord.c
  {
    coord.r >= 0 && coord.r < ROWS && coord.c >= 0 && coord.c < COLS
  }
}

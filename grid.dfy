/** The board's 8 x 8 list of lists of optional pieces as a value, with the
    reads and writes Board performs on it and piece counting. */
module Grids {
  import opened Geometry
  import opened Pieces

  predicate IsGrid(g: seq<seq<Cell>>) {
    |g| == ROWS && forall r :: 0 <= r < ROWS ==> |g[r]| == COLS
  }

  /** ROWS rows of COLS cells each, indexed g[row][column]. */
  type Grid = g: seq<seq<Cell>> | IsGrid(g) witness seq(8, _ => seq(8, _ => None))

  /** The board as first built: every cell None. */
  function EmptyGrid(): (g: Grid)
    ensures forall r, c :: 0 <= r < ROWS && 0 <= c < COLS ==> g[r][c] == None
  {
    seq(ROWS, _ => seq(COLS, _ => None))
  }

  /** Board.at: reads a cell with Python's subscript, so a negative row or
      column counts from the far end. */
  function At(g: Grid, coord: Coordinate): (cell: Cell)
    requires InIndexRange(coord)
    ensures cell == g[coord.r % ROWS][coord.c % COLS]
    ensures CheckValid(coord) ==> cell == g[coord.r][coord.c]
  {
    g[PyIndex(coord.r, ROWS)][PyIndex(coord.c, COLS)]
  }

  /** The grid with one in-bounds cell overwritten. */
  function SetCell(g: Grid, coord: Coordinate, v: Cell): (g': Grid)
    requires CheckValid(coord)
    ensures forall r, c :: 0 <= r < ROWS && 0 <= c < COLS ==>
      g'[r][c] == if r == coord.r && c == coord.c then v else g[r][c]
  {
    g[coord.r := g[coord.r][coord.c := v]]
  }

  /** The grid after Board.place(piece, coord): the cell is written only when
      it is empty. */
  function Placed(g: Grid, piece: Cell, coord: Coordinate): (g': Grid)
    requires CheckValid(coord)
    ensures At(g', coord) == if At(g, coord).None? then piece else At(g, coord)
    ensures forall r, c :: 0 <= r < ROWS && 0 <= c < COLS && (r != coord.r || c != coord.c) ==>
      g'[r][c] == g[r][c]
  {
    if At(g, coord).None? then SetCell(g, coord, piece) else g
  }

  /** 1 when the cell holds a piece of the given side (any side for None). */
  function Tally(cell: Cell, side: Option<Team>): nat {
    if cell.Some? && (side.None? || cell.value.team == side.value) then 1 else 0
  }

  function RowCount(row: seq<Cell>, side: Option<Team>): nat {
    if row == [] then 0 else Tally(row[0], side) + RowCount(row[1..], side)
  }

  function GridCount(rows: seq<seq<Cell>>, side: Option<Team>): nat {
    if rows == [] then 0 else RowCount(rows[0], side) + GridCount(rows[1..], side)
  }

  /** Number of pieces on the board, of either side. */
  function PieceCount(g: Grid): nat {
    GridCount(g, None)
  }

  lemma {:induction false} RowCountUpdate(row: seq<Cell>, i: int, v: Cell, side: Option<Team>)
    requires 0 <= i < |row|
    ensures RowCount(row[i := v], side) + Tally(row[i], side) == RowCount(row, side) + Tally(v, side)
  {
    if i == 0 {
      assert row[i := v][1..] == row[1..];
    } else {
      assert row[i := v][1..] == row[1..][i - 1 := v];
      RowCountUpdate(row[1..], i - 1, v, side);
    }
  }

  lemma {:induction false} GridCountUpdate(rows: seq<seq<Cell>>, i: int, row: seq<Cell>, side: Option<Team>)
    requires 0 <= i < |rows|
    ensures GridCount(rows[i := row], side) + RowCount(rows[i], side) == GridCount(rows, side) + RowCount(row, side)
  {
    if i == 0 {
      assert rows[i := row][1..] == rows[1..];
    } else {
      assert rows[i := row][1..] == rows[1..][i - 1 := row];
      GridCountUpdate(rows[1..], i - 1, row, side);
    }
  }

  /** Overwriting one cell changes a count by what leaves and what enters it. */
  lemma SetCellCount(g: Grid, coord: Coordinate, v: Cell, side: Option<Team>)
    requires CheckValid(coord)
    ensures GridCount(SetCell(g, coord, v), side) + Tally(At(g, coord), side) == GridCount(g, side) + Tally(v, side)
  {
    RowCountUpdate(g[coord.r], coord.c, v, side);
    GridCountUpdate(g, coord.r, g[coord.r][coord.c := v], side);
  }

  /** place adds the piece to the count when the cell was empty and otherwise
      changes nothing. */
  lemma PlacedCount(g: Grid, piece: Cell, coord: Coordinate, side: Option<Team>)
    requires CheckValid(coord)
    ensures GridCount(Placed(g, piece, coord), side) ==
      GridCount(g, side) + (if At(g, coord).None? then Tally(piece, side) else 0)
  {
    if At(g, coord).None? {
      SetCellCount(g, coord, piece, side);
    }
  }
}

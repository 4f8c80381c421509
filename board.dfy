/** The Board class: the mutable 8 x 8 grid, its starting layout, place and
    move. Board.at and Board.list_moves only read the grid; they are
    Grids.At and MoveRules.ListMoves applied to the board field. */
module Checkers {
  import opened Geometry
  import opened Pieces
  import opened Grids
  import opened MoveRules

  /** The starting content of a cell: X pieces advancing DOWN on the dark
      squares (row + column odd) of rows 0 to 2, O pieces advancing UP on the
      dark squares of rows 5 to 7, nothing elsewhere. */
  function StartCell(r: int, c: int): (cell: Cell)
    ensures cell.Some? <==> (r + c) % 2 == 1 && (r <= 2 || 5 <= r)
    ensures cell.Some? ==> (cell.value.team == X <==> r <= 2)
    ensures cell.Some? ==> (cell.value.direction == Down <==> cell.value.team == X)
  {
    if (r + c) % 2 == 1 && r < 3 then Some(Piece(X, Down))
    else if (r + c) % 2 == 1 && r >= 5 then Some(Piece(O, Up))
    else None
  }

  predicate IsStartLayout(g: Grid) {
    forall r, c :: 0 <= r < ROWS && 0 <= c < COLS ==> g[r][c] == StartCell(r, c)
  }

  /** A row in which every other cell, starting at column 0 when parity is
      odd and column 1 when it is even, holds cell and the rest are empty. */
  predicate Alternates(row: seq<Cell>, parity: int, cell: Cell) {
    forall c :: 0 <= c < |row| ==> row[c] == if (parity + c) % 2 == 1 then cell else None
  }

  lemma {:induction false} AlternatingRowCount(row: seq<Cell>, parity: int, cell: Cell, side: Option<Team>)
    requires Alternates(row, parity, cell)
    ensures RowCount(row, side) == Tally(cell, side) * ((|row| + parity % 2) / 2)
  {
    if row != [] {
      assert Alternates(row[1..], parity + 1, cell);
      AlternatingRowCount(row[1..], parity + 1, cell, side);
    }
  }

  lemma StartRowCount(g: Grid, r: int, side: Option<Team>)
    requires IsStartLayout(g) && 0 <= r < ROWS
    ensures RowCount(g[r], side) == 4 * Tally(StartCell(r, r + 1), side)
  {
    assert Alternates(g[r], r, StartCell(r, r + 1));
    AlternatingRowCount(g[r], r, StartCell(r, r + 1), side);
  }

  /** The starting layout holds 12 pieces of each side. */
  lemma StartCounts(g: Grid)
    requires IsStartLayout(g)
    ensures GridCount(g, Some(X)) == 12
    ensures GridCount(g, Some(O)) == 12
    ensures PieceCount(g) == 24
  {
    forall side: Option<Team>
      ensures GridCount(g, side) ==
        RowCount(g[0], side) + RowCount(g[1], side) + RowCount(g[2], side) + RowCount(g[3], side) +
        RowCount(g[4], side) + RowCount(g[5], side) + RowCount(g[6], side) + RowCount(g[7], side)
    {
      assert GridCount(g[8..], side) == 0;
      assert GridCount(g[7..], side) == RowCount(g[7], side) + GridCount(g[8..], side);
      assert GridCount(g[6..], side) == RowCount(g[6], side) + GridCount(g[7..], side);
      assert GridCount(g[5..], side) == RowCount(g[5], side) + GridCount(g[6..], side);
      assert GridCount(g[4..], side) == RowCount(g[4], side) + GridCount(g[5..], side);
      assert GridCount(g[3..], side) == RowCount(g[3], side) + GridCount(g[4..], side);
      assert GridCount(g[2..], side) == RowCount(g[2], side) + GridCount(g[3..], side);
      assert GridCount(g[1..], side) == RowCount(g[1], side) + GridCount(g[2..], side);
      assert GridCount(g, side) == RowCount(g[0], side) + GridCount(g[1..], side);
    }
    forall side: Option<Team>, r | 0 <= r < ROWS
      ensures RowCount(g[r], side) == 4 * Tally(StartCell(r, r + 1), side)
    {
      StartRowCount(g, r, side);
    }
  }

  class Board {
    var board: Grid

    /** Builds the starting layout with one place call per piece; every one of
        those calls finds its cell empty and succeeds. */
    constructor ()
      ensures IsStartLayout(board)
    {
      board := EmptyGrid();
      new;
      // X pieces advancing DOWN on rows 0, 1 and 2
      var r := 0;
      while r < 3
        invariant 0 <= r <= 3
        invariant forall i, j :: 0 <= i < ROWS && 0 <= j < COLS ==>
          board[i][j] == if i < r then StartCell(i, j) else None
      {
        PlaceRow(r, Piece(X, Down));
        r := r + 1;
      }
      // O pieces advancing UP on rows 7, 6 and 5 (the source bounds this
      // loop with COLS, equal to ROWS)
      r := COLS - 1;
      while r > COLS - 4
        invariant COLS - 4 <= r <= COLS - 1
        invariant forall i, j :: 0 <= i < ROWS && 0 <= j < COLS ==>
          board[i][j] == if i < 3 || i > r then StartCell(i, j) else None
      {
        PlaceRow(r, Piece(O, Up));
        r := r - 1;
      }
    }

    /** The inner loop of the constructor: places piece on every other cell
        of the empty row r, starting at column 1 on even rows and column 0 on
        odd ones; each of these place calls succeeds. */
    method PlaceRow(r: int, piece: Piece)
      requires 0 <= r < ROWS
      requires forall j :: 0 <= j < COLS ==> board[r][j] == None
      modifies this
      ensures forall i, j :: 0 <= i < ROWS && 0 <= j < COLS ==>
        board[i][j] == if i == r && (r + j) % 2 == 1 then Some(piece) else old(board[i][j])
    {
      var start := if r % 2 == 0 then 1 else 0;
      var c := start;
      while c < COLS
        invariant start <= c <= COLS + 1 && c % 2 == start
        invariant forall i, j :: 0 <= i < ROWS && 0 <= j < COLS ==>
          board[i][j] == if i == r && j < c && (r + j) % 2 == 1 then Some(piece) else old(board[i][j])
      {
        var ok := Place(Some(piece), Coordinate(r, c));
        assert ok;
        c := c + 2;
      }
    }

    /** Board.place: stores piece (a piece or None) only if the cell is empty
        and reports whether it did. */
    method Place(piece: Cell, coord: Coordinate) returns (ok: bool)
      requires CheckValid(coord)
      modifies this
      ensures ok <==> old(At(board, coord)).None?
      ensures board == Placed(old(board), piece, coord)
    {
      if board[coord.r][coord.c].None? {
        board := SetCell(board, coord, piece);
        return true;
      }
      return false;
    }

    /** Board.move: accepted exactly when to equals one of the listed
        destinations; the board then changes as Moved describes. */
    method Move(from: Coordinate, to: Coordinate) returns (ok: bool)
      requires CheckValid(from)
      modifies this
      ensures ok <==> to in ListMoves(old(board), from)
      ensures board == Moved(old(board), from, to)
    {
      var piece := At(board, from);
      var candidates := ListMoves(board, from);
      if Contains(candidates, to) {
        // place the piece on the new empty spot
        var _ := Place(piece, to);
        // try to clear the old spot; place refuses, the cell being occupied
        var _ := Place(None, from);
        return true;
      }
      return false;
    }
  }
}

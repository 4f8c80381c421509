/** Concrete consequences of the rules as coded, in particular where the code
    does less than its comments say: pieces are copied rather than moved, and
    the DOWN_RIGHT step looks at the DOWN_LEFT cell. The code also has no jump
    or capture, although draughts has them. */
module Scenarios {
  import opened Geometry
  import opened Pieces
  import opened Grids
  import opened MoveRules
  import opened Checkers

  /** Move listing on the starting layout: an X piece in row 2 is offered both
      cells of row 3, a piece behind its own front row and an empty cell are
      offered nothing, and an O piece on the left edge only its one
      neighbour. */
  lemma StartListing(g: Grid)
    requires IsStartLayout(g)
    ensures ListMoves(g, Coordinate(2, 1)) == [Coordinate(3, 0), Coordinate(3, 2)]
    ensures ListMoves(g, Coordinate(0, 1)) == []
    ensures ListMoves(g, Coordinate(0, 0)) == []
    ensures ListMoves(g, Coordinate(5, 0)) == [Coordinate(4, 1)]
  {
    assert g[3][0] == None && g[3][2] == None && g[4][1] == None;
    assert g[1][0].Some? && g[1][2].Some? && g[2][1].Some? && g[5][0].Some?;
  }

  /** The first move of a game, (2, 1) to (3, 2), is accepted but leaves the
      piece on (2, 1) as well as putting one on (3, 2). */
  lemma FirstMoveCopies(g: Grid)
    requires IsStartLayout(g)
    ensures Contains(ListMoves(g, Coordinate(2, 1)), Coordinate(3, 2))
    ensures At(Moved(g, Coordinate(2, 1), Coordinate(3, 2)), Coordinate(2, 1)) == Some(Piece(X, Down))
    ensures At(Moved(g, Coordinate(2, 1), Coordinate(3, 2)), Coordinate(3, 2)) == Some(Piece(X, Down))
  {
  }

  /** After that first move the board holds 25 pieces, 13 of them X. */
  lemma FirstMoveCount(g: Grid)
    requires IsStartLayout(g)
    ensures PieceCount(Moved(g, Coordinate(2, 1), Coordinate(3, 2))) == 25
    ensures GridCount(Moved(g, Coordinate(2, 1), Coordinate(3, 2)), Some(X)) == 13
  {
    var from, to := Coordinate(2, 1), Coordinate(3, 2);
    FirstMoveCopies(g);
    assert At(g, to) == None;
    StartCounts(g);
    MovedCount(g, from, to, None);
    MovedCount(g, from, to, Some(X));
  }

  /** A move from the empty cell (0, 0) of the starting layout is refused. */
  lemma EmptyCellMoveRefused(g: Grid)
    requires IsStartLayout(g)
    ensures !Contains(ListMoves(g, Coordinate(0, 0)), Coordinate(1, 1))
    ensures Moved(g, Coordinate(0, 0), Coordinate(1, 1)) == g
  {
  }

  /** An accepted move never lowers the piece count, so no move captures. */
  lemma NoCapture(g: Grid, from: Coordinate, to: Coordinate)
    requires CheckValid(from)
    ensures PieceCount(Moved(g, from, to)) >= PieceCount(g)
    ensures Contains(ListMoves(g, from), to) ==> to.r - from.r == 1 || from.r - to.r == 1
  {
    MovedPieceCount(g, from, to);
  }

  /** A DOWN piece whose DOWN_LEFT cell is empty is offered its DOWN_RIGHT
      cell even when that cell is occupied; the move is then reported as
      accepted although the board does not change. */
  lemma DownRightOntoOccupied(g: Grid, from: Coordinate)
    requires CheckValid(from) && Advances(g, from, Down)
    requires CheckValid(Add(from, DownRight))
    requires At(g, Add(from, DownLeft)).None? && At(g, Add(from, DownRight)).Some?
    ensures Add(from, DownRight) in ListMoves(g, from)
    ensures Contains(ListMoves(g, from), Add(from, DownRight))
    ensures Moved(g, from, Add(from, DownRight)) == g
  {
  }

  /** A DOWN piece in column 0 has no DOWN_LEFT cell, and the DOWN_RIGHT test
      then reads column 7 of the next row through Python's negative index:
      the cell (r + 1, 1) is offered exactly when (r + 1, 7) is empty. */
  lemma ColumnZeroReadsColumnSeven(g: Grid, r: int)
    requires 0 <= r < ROWS - 1 && Advances(g, Coordinate(r, 0), Down)
    ensures ListMoves(g, Coordinate(r, 0)) ==
      if g[r + 1][7].None? then [Coordinate(r + 1, 1)] else []
  {
  }
}

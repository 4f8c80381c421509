/** Move listing and move execution as they act on the grid value. The code
    lists one-step diagonal advances only: there is no capture. */
module MoveRules {
  import opened Geometry
  import opened Pieces
  import opened Grids

  /** The origin holds a piece advancing in direction d. */
  predicate Advances(g: Grid, coord: Coordinate, d: Direction)
    requires CheckValid(coord)
  {
    At(g, coord).Some? && At(g, coord).value.direction == d
  }

  /** One step of list_moves: the destination origin + m is listed when it is
      in bounds and the cell at origin + probed is empty. The source probes
      the destination itself for three steps and the DOWN_LEFT cell for the
      DOWN_RIGHT step. */
  function Candidate(g: Grid, origin: Coordinate, m: Move, probed: Move): (listed: seq<Coordinate>)
    requires CheckValid(origin)
    requires CheckValid(Add(origin, m)) ==> InIndexRange(Add(origin, probed))
    ensures listed == [] || listed == [Add(origin, m)]
  {
    if CheckValid(Add(origin, m)) && At(g, Add(origin, probed)).None? then [Add(origin, m)] else []
  }

  /** Board.list_moves: the destinations offered to the piece at coord. */
  function ListMoves(g: Grid, coord: Coordinate): (moves: seq<Coordinate>)
    requires CheckValid(coord)
    ensures |moves| <= 2
    ensures At(g, coord).None? ==> moves == []
    ensures forall i :: 0 <= i < |moves| ==>
      && CheckValid(moves[i])
      && At(g, coord).Some?
      && moves[i].r == coord.r + At(g, coord).value.direction.Value()
      && (moves[i].c == coord.c - 1 || moves[i].c == coord.c + 1)
    ensures |moves| == 2 ==> moves[0].c < moves[1].c
    ensures Add(coord, UpLeft) in moves <==>
      Advances(g, coord, Up) && CheckValid(Add(coord, UpLeft)) && At(g, Add(coord, UpLeft)).None?
    ensures Add(coord, UpRight) in moves <==>
      Advances(g, coord, Up) && CheckValid(Add(coord, UpRight)) && At(g, Add(coord, UpRight)).None?
    ensures Add(coord, DownLeft) in moves <==>
      Advances(g, coord, Down) && CheckValid(Add(coord, DownLeft)) && At(g, Add(coord, DownLeft)).None?
    ensures Add(coord, DownRight) in moves <==>
      Advances(g, coord, Down) && CheckValid(Add(coord, DownRight)) && At(g, Add(coord, DownLeft)).None?
  {
    match At(g, coord)
    case None => []
    case Some(piece) =>
      if piece.direction == Up then
        Candidate(g, coord, UpLeft, UpLeft) + Candidate(g, coord, UpRight, UpRight)
      else
        Candidate(g, coord, DownLeft, DownLeft) + Candidate(g, coord, DownRight, DownLeft)
  }

  /** Python's `x in candidates`, which compares with Coordinate.__eq__. */
  function Contains(candidates: seq<Coordinate>, x: Coordinate): (found: bool)
    ensures found <==> x in candidates
  {
    if candidates == [] then false
    else SameCell(candidates[0], x) || Contains(candidates[1..], x)
  }

  /** The grid after Board.move(from, to). When to is listed, the piece is
      placed on to, and then None is placed on from; since place never
      overwrites an occupied cell, the second write does nothing and the piece
      is copied rather than moved. */
  function Moved(g: Grid, from: Coordinate, to: Coordinate): (g': Grid)
    requires CheckValid(from)
    ensures !Contains(ListMoves(g, from), to) ==> g' == g
    ensures Contains(ListMoves(g, from), to) ==>
      && At(g, from).Some?
      && At(g', from) == At(g, from)
      && At(g', to) == (if At(g, to).None? then At(g, from) else At(g, to))
      && forall r, c :: 0 <= r < ROWS && 0 <= c < COLS && (r != to.r || c != to.c) ==> g'[r][c] == g[r][c]
  {
    if Contains(ListMoves(g, from), to) then
      Placed(Placed(g, At(g, from), to), None, from)
    else
      g
  }

  /** A move from an empty cell is always refused. */
  lemma EmptyOriginRefused(g: Grid, from: Coordinate, to: Coordinate)
    requires CheckValid(from) && At(g, from).None?
    ensures !Contains(ListMoves(g, from), to) && Moved(g, from, to) == g
  {
  }

  /** Piece counts after move: the mover's side gains a piece exactly when the
      move is accepted onto an empty cell; nothing is ever removed. */
  lemma MovedCount(g: Grid, from: Coordinate, to: Coordinate, side: Option<Team>)
    requires CheckValid(from)
    ensures GridCount(Moved(g, from, to), side) ==
      GridCount(g, side) +
      (if Contains(ListMoves(g, from), to) && At(g, to).None? then Tally(At(g, from), side) else 0)
  {
    if Contains(ListMoves(g, from), to) {
      var g1 := Placed(g, At(g, from), to);
      PlacedCount(g, At(g, from), to, side);
      PlacedCount(g1, None, from, side);
    }
  }

  lemma MovedPieceCount(g: Grid, from: Coordinate, to: Coordinate)
    requires CheckValid(from)
    ensures PieceCount(Moved(g, from, to)) ==
      PieceCount(g) + (if Contains(ListMoves(g, from), to) && At(g, to).None? then 1 else 0)
  {
    MovedCount(g, from, to, None);
  }

  /** The destinations the docstring of list_moves promises: the piece's two
      forward diagonal neighbours that are in bounds and empty, left first. */
  function DocumentedMoves(g: Grid, coord: Coordinate): (moves: seq<Coordinate>)
    requires CheckValid(coord)
    ensures forall i :: 0 <= i < |moves| ==>
      && CheckValid(moves[i])
      && At(g, moves[i]).None?
      && At(g, coord).Some?
      && moves[i].r == coord.r + At(g, coord).value.direction.Value()
      && (moves[i].c == coord.c - 1 || moves[i].c == coord.c + 1)
  {
    match At(g, coord)
    case None => []
    case Some(piece) =>
      if piece.direction == Up then
        Candidate(g, coord, UpLeft, UpLeft) + Candidate(g, coord, UpRight, UpRight)
      else
        Candidate(g, coord, DownLeft, DownLeft) + Candidate(g, coord, DownRight, DownRight)
  }

  /** list_moves keeps the docstring's promise except for the DOWN_RIGHT step:
      the two lists differ exactly when a DOWN piece's DOWN_RIGHT cell is in
      bounds and its emptiness differs from that of the DOWN_LEFT cell (read
      at column 7 when the origin is in column 0). */
  lemma ListMovesAgainstDocumented(g: Grid, coord: Coordinate)
    requires CheckValid(coord)
    ensures ListMoves(g, coord) != DocumentedMoves(g, coord) <==>
      && Advances(g, coord, Down)
      && CheckValid(Add(coord, DownRight))
      && At(g, Add(coord, DownLeft)).None? != At(g, Add(coord, DownRight)).None?
  {
  }

  /** Every listed destination is in bounds and empty, as the docstring says,
      except possibly the DOWN_RIGHT one. */
  lemma ListedAreEmptyExceptDownRight(g: Grid, coord: Coordinate, i: int)
    requires CheckValid(coord)
    requires 0 <= i < |ListMoves(g, coord)|
    requires ListMoves(g, coord)[i] != Add(coord, DownRight)
    ensures At(g, ListMoves(g, coord)[i]).None?
  {
  }
}

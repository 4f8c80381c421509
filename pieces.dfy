/** Pieces and board cells. */
module Pieces {
  import opened Geometry

  /** Side owning a piece. The source's third member, EMPTY, exists only as the
      glyph printed for an empty cell; a board cell is empty by holding None. */
  datatype Team = X | O

  /** A piece carries its side and the direction it advances in; it has no
      position, which is implicit in the cell holding it. */
  datatype Piece = Piece(team: Team, direction: Direction)

  datatype Option<T> = None | Some(value: T)

  /** Python's Optional[Piece], the content of one board cell. */
  type Cell = Option<Piece>
}

# Draughts rule engine (checkers.py) in Dafny

This project models the rule engine of a small draughts (checkers) program
written in Python: the coordinate geometry, the 8 x 8 board of optional
pieces, listing the destinations of a piece and executing a move. It then
proves what that code does.

The model follows the code rather than its comments. Only one-step diagonal
advances exist: the code has no jump or capture, although draughts has them,
and the model proves that no move lowers the piece count. It also proves two
ways in which the code does less than its comments say:

- For a DOWN piece, the DOWN_RIGHT destination is checked against the
  DOWN_LEFT cell (checkers.py:159). When the origin is in column 0, that cell
  has column -1, and Python's negative index reads column 7 of the next row.
- `move` never clears the origin. Its `place(None, old_coord)`
  (checkers.py:124) is refused because the origin is occupied. An accepted
  move therefore copies the piece onto the destination, and onto an occupied
  DOWN_RIGHT cell it changes nothing while still returning true.

Layout:

- `geometry.dfy` (module `Geometry`): `ROWS`, `COLS`, `Direction`, `Move`,
  `Coordinate`, `Add`, `CheckValid`, `SameCell` (the source's `__eq__`) and
  `PyIndex`, Python's list subscript.
- `pieces.dfy` (module `Pieces`): `Team`, `Piece`, and `Option`, used for the
  cells.
- `grid.dfy` (module `Grids`): the board's list of lists as an 8 x 8 `Grid`
  value, and `At`, the effect of `place` on it, and piece counts.
- `moves.dfy` (module `MoveRules`): `ListMoves`, Python's `in` over
  coordinates, the effect of `move`, and the docstring's promise
  (`DocumentedMoves`).
- `board.dfy` (module `Checkers`): the class `Board`. It has a field `board`
  that its constructor and its `Place` and `Move` methods reassign, plus the
  starting layout and its piece counts.
- `scenarios.dfy` (module `Scenarios`): concrete consequences on the starting
  board and on boards built to expose the departures listed above.

`Board.at` and `Board.list_moves` only read the grid, so they are the
functions `Grids.At` and `MoveRules.ListMoves` applied to the `board` field.
`Board.Move` calls `ListMoves` on its own field. `Board.at` has no bounds
check, so `Grids.At` accepts what Python's subscript accepts: indices from -8
to 7 on both axes, where negative indices count from the far end.

## Model

| member | source | states |
|---|---|---|
| `Geometry.Direction.Value` | checkers.py:23-27 | UP is -1 and DOWN is +1: a unit row offset whose sign tells the direction |
| `Geometry.Add` | checkers.py:41-42 | the new coordinate is one diagonal step away: row -1 for UP_LEFT/UP_RIGHT and +1 otherwise, column -1 for UP_LEFT/DOWN_LEFT and +1 otherwise (the deltas of the Move enum at checkers.py:29-33) |
| `Geometry.Move.Value` | checkers.py:29-33 | a step's row direction is UP exactly for UP_LEFT and UP_RIGHT, and its column direction is LEFT (the alias of UP) exactly for UP_LEFT and DOWN_LEFT |
| `Geometry.SameCell` | checkers.py:47-49 | `__eq__` holds exactly when the two coordinates are the same value |
| `Geometry.PyIndex` | checkers.py:100 | a list subscript in [-n, n) selects position i mod n, which lies in [0, n) |
| `Geometry.CheckValid` | checkers.py:51-53 | true iff 0 <= r < 8 and 0 <= c < 8, i.e. exactly the coordinates that subscript the grid without raising and without wrapping around |
| `Grids.EmptyGrid` | checkers.py:70 | every one of the 8 x 8 cells starts as None |
| `Grids.At` | checkers.py:99-100 | reads cell (r mod 8, c mod 8), which is the cell (r, c) itself for an in-bounds coordinate |
| `Grids.SetCell` | checkers.py:106 | the written cell holds the new value and every other cell is unchanged |
| `Grids.Placed` | checkers.py:102-109 | place stores the value iff the cell was empty, leaves an occupied cell as it was, and changes no other cell |
| `Grids.RowCountUpdate` | checkers.py:106 | overwriting one cell of a row changes its count by what leaves and what enters |
| `Grids.GridCountUpdate` | checkers.py:106 | replacing one row changes the board count by the difference of the row counts |
| `Grids.SetCellCount` | checkers.py:106 | overwriting one cell changes each side's count by what leaves and what enters that cell |
| `Grids.PlacedCount` | checkers.py:102-109 | place adds one piece of the piece's side when the cell was empty and changes no count otherwise |
| `MoveRules.Candidate` | checkers.py:144-160 | one step of list_moves contributes nothing or exactly origin + step |
| `MoveRules.ListMoves` | checkers.py:130-166 | [] for an empty origin; otherwise at most 2 destinations, all in bounds, one row forward in the piece's direction and one column to either side, left before right; UP_LEFT, UP_RIGHT and DOWN_LEFT are each listed iff the piece advances that way and the cell is in bounds and empty; DOWN_RIGHT is listed iff the piece advances DOWN, the cell is in bounds and the DOWN_LEFT cell (column 7 when that column is -1) is empty |
| `MoveRules.Contains` | checkers.py:119 | `new_coord in candidates` under `__eq__` is exactly membership of the value |
| `MoveRules.Moved` | checkers.py:111-128 | a refused move leaves the board unchanged; an accepted one requires an occupied origin, leaves the origin's piece in place, gives the destination the moving piece iff it was empty, and changes no other cell |
| `MoveRules.EmptyOriginRefused` | checkers.py:116-119 | a move from an empty cell is refused and changes nothing |
| `MoveRules.MovedCount` | checkers.py:119-126 | a move changes each side's count only by adding the moving piece when it is accepted onto an empty cell |
| `MoveRules.MovedPieceCount` | checkers.py:119-128 | the total piece count rises by exactly 1 when a move is accepted onto an empty cell, and is otherwise unchanged |
| `MoveRules.DocumentedMoves` | checkers.py:131-136 | the destinations the docstring promises: forward diagonal neighbours, all in bounds and empty |
| `MoveRules.ListMovesAgainstDocumented` | checkers.py:154-160 | list_moves differs from the docstring's list iff the piece advances DOWN, DOWN_RIGHT is in bounds, and the DOWN_LEFT and DOWN_RIGHT cells differ in emptiness |
| `MoveRules.ListedAreEmptyExceptDownRight` | checkers.py:131-160 | every listed destination other than DOWN_RIGHT is empty |
| `Checkers.StartCell` | checkers.py:3-10 | a starting cell holds a piece iff r + c is odd and the row is 0-2 or 5-7; the piece is X in rows 0-2 and O otherwise, and it advances DOWN iff it is X |
| `Checkers.AlternatingRowCount` | checkers.py:74-75 | a row holding one kind of cell on every other column counts that cell once per filled column |
| `Checkers.StartRowCount` | checkers.py:73-82 | each row of the starting layout holds 4 pieces of its side, or none in rows 3 and 4 |
| `Checkers.StartCounts` | checkers.py:68-82 | the starting layout holds 12 X pieces, 12 O pieces and 24 in all |
| `Checkers.Board.constructor` | checkers.py:68-82 | the board holds X/DOWN pieces exactly on the cells of rows 0-2 with r + c odd, O/UP pieces exactly on those of rows 5-7, and nothing else; every place call made during setup succeeds |
| `Checkers.Board.PlaceRow` | checkers.py:74-76 | the inner setup loop fills exactly the cells of row r with r + c odd and changes no other cell |
| `Checkers.Board.Place` | checkers.py:102-109 | returns true iff the cell was empty, and the new board is the old one after place (see `Grids.Placed`) |
| `Checkers.Board.Move` | checkers.py:111-128 | returns true iff new_coord equals a listed destination, and the new board is the old one after move (see `MoveRules.Moved`) |
| `Scenarios.StartListing` | checkers.py:137-160 | on the starting board, (2, 1) is offered [(3, 0), (3, 2)], (0, 1) and the empty (0, 0) nothing, and (5, 0) only [(4, 1)] |
| `Scenarios.FirstMoveCopies` | checkers.py:119-126 | the opening move (2, 1) to (3, 2) is accepted and leaves an X piece on both cells |
| `Scenarios.FirstMoveCount` | checkers.py:119-126 | after that move the board holds 25 pieces, 13 of them X |
| `Scenarios.EmptyCellMoveRefused` | checkers.py:116-128 | moving from the empty (0, 0) on the starting board is refused and changes nothing |
| `Scenarios.NoCapture` | checkers.py:111-166 | no move lowers the piece count, and every accepted move goes exactly one row |
| `Scenarios.DownRightOntoOccupied` | checkers.py:158-160 | a DOWN piece with an empty DOWN_LEFT cell is offered an occupied DOWN_RIGHT cell; moving there returns true and changes nothing |
| `Scenarios.ColumnZeroReadsColumnSeven` | checkers.py:158-160 | a DOWN piece in column 0 is offered (r + 1, 1) iff (r + 1, 7) is empty |

## Left out

- Rendering: `Board.__str__`, `Piece.__str__` and `Coordinate.__str__` (checkers.py:44-45, 61-62, 85-97) only build display strings. `Team.EMPTY` exists only for that rendering, so `Team` is {X, O}.
- The demo at checkers.py:169-174 builds a board and prints it when the file loads. That is I/O, not engine behaviour.
- The `print` branch of `list_moves` (checkers.py:162-164) is unreachable: `Direction` has exactly the two values UP and DOWN. In the source, LEFT and RIGHT are aliases of these (checkers.py:23-27), and the model keeps them as the constants `Left` and `Right`.
- Out-of-range subscripts: in Python, an index of 8 or more raises IndexError. `Grids.At` requires indices in [-8, 8). `Place`, `ListMoves` and `Move` require an in-bounds coordinate for the cell they read first. In the source, the only out-of-bounds read with a valid origin is the column -1 read at checkers.py:159, and the model handles it through `PyIndex`.
- `Move` puts no requirement on its destination. A destination out of bounds is never listed, so the move is refused, as in the source.
- Captures, multi-jumps, piece removal, promotion, turn order and win detection are not in the code, so they are not modelled.
- `Coordinate.__eq__` without `__hash__` only affects hashing, which the code never uses.
- The grid is modelled as a value of type `seq<seq<Option<Piece>>>` that `Board` reassigns. The source's rows are separate lists that nothing else references, so no aliasing is lost.

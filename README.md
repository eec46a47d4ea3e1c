# Checkers rules engine, modelled in Dafny

This project models the rules engine of a command-line checkers game. The engine is the
`Main` class of `CLICheckers.java` with its nested `Location`, `Checker`, `Team` and `Game`
classes. The model covers:

- the position: squares, teams, pieces, and the game object that owns the piece list, the
  board size and the completion flag;
- the two game constructors: an empty board of any size, and the standard 8x8 setup;
- the linear search for a piece by square, and the square-to-piece map;
- the move generator: diagonal candidates, the board, occupancy and capture filters, the
  jumped square, and the per-piece destination lists for one team or the whole board;
- the turn executor: simple moves, capture sequences, crowning on the back rank, and the
  completion flag;
- the dispatch of an already parsed turn request: skip, move, or capture along a list of
  landing squares.

The model has three modules, one per part of the engine:

- `Position` (`position.dfy`) holds the data and the `Game` class.
  - `Game` is a class whose fields `checkers`, `boardSize` and `isComplete` are updated in
    place, as in the source.
  - A piece is a `Checker` value addressed by its index in `checkers`.
  - The source's checker equality (square and team, ignoring the king flag) is `Checker.Key()`.
- `MoveGen` (`movegen.dfy`) is the move generator.
  - The filters are predicates.
  - The two collectors are methods with the source's nested loops.
  - When no two pieces share a square, both collectors are proved to return, for every piece,
    `Destinations`: the candidate list of that piece filtered against the current position.
- `Turns` (`turns.dfy`) is the turn executor.
  - `Move` and `Capture` are methods on the game.
  - A capture sequence is specified by the recursive function `CaptureRun`. The method's loop
    is proved to compute it.
  - The lemmas about `CaptureRun` state the stopping, success, removal and completion rules.

`Game.Valid()` is the position invariant: every piece is on the board and no two pieces share
a square. Both constructors establish it, and `Move`, `Capture` and `ExecuteTurn` preserve it.
`Move`, `Capture` and `ExecuteTurn` also require it. Without it, the source's square-to-piece
map silently drops pieces, and its piece-keyed move map can confuse two equal pieces.

The midpoint of a capture uses Java's `/`, which truncates toward zero. The model writes this
out as `HalfTowardZero`. For every capture candidate the sum of the coordinates is even, so the
rounding never matters: `CapturedSquareOfCandidate` proves that the midpoint is the diagonal
neighbour.

## Model

| member | source | states |
|---|---|---|
| Position.NewChecker | CLICheckers.java:457-461 | a newly constructed checker has the given square and team and is not a king |
| Position.Checker.Key | CLICheckers.java:464-467 | checker equality compares the square and the team and ignores the king flag; `KeyIdentifiesChecker` shows it singles out one piece of a valid position |
| Position.KeyIdentifiesChecker | CLICheckers.java:464-467 | when no two pieces share a square, two pieces that are equal under checker equality (square and team) are the same list entry |
| Position.OnBoard | CLICheckers.java:355-359 | a square is on an n-by-n board exactly when 0 <= x < n and 0 <= y < n; `DestinationsExact` shows every destination satisfies it |
| Position.IndexAt | CLICheckers.java:535-542 | the search result is the index of the first piece on the square; it is absent exactly when no piece stands there |
| Position.Game.CheckerByLocation | CLICheckers.java:535-542 | the loop returns the index of the first piece on the square, or nothing when the square is empty |
| Position.PieceMap | CLICheckers.java:575-581 | the map got by putting each piece at its square in list order, a later piece on a square replacing an earlier one; `PieceMapKeys`, `PieceMapAt` and `PieceMapOfValid` state its keys and values |
| Position.PieceMapKeys | CLICheckers.java:575-581 | the squares of the map are exactly the occupied squares |
| Position.PieceMapAt | CLICheckers.java:575-581 | a piece with no later piece on its square is the value the map holds for that square |
| Position.PieceMapOfValid | CLICheckers.java:575-581 | when no two pieces share a square, the map holds every piece at its own square and nothing else |
| Position.Game.LocationToCheckerMapping | CLICheckers.java:575-581 | the loop builds the square-to-piece map by insertion in list order, so a later piece on a square replaces an earlier one |
| Position.Game.constructor | CLICheckers.java:505-510 | a game of the given size has no pieces and is not complete; the empty position is valid |
| Position.Game.Standard | CLICheckers.java:515-533 | the nested loops build the standard setup, row by row and left to right; the board size is 8, the game is not complete, and the position is valid |
| Position.StandardSetup | CLICheckers.java:515-533 | the 24 pieces of the standard setup in the order the loops place them; `StandardSetupPieces`, `StandardSetupValid` and `StandardSetupSquares` state its contents and `Game.Standard` proves the loops build it |
| Position.StandardPiece | CLICheckers.java:518-530 | the k-th piece placed is on row STANDARD_ROWS[k/4] at column parity + 2*(k%4), Black for the first three rows and Red after them, and not a king |
| Position.StandardSetupAt | CLICheckers.java:522-530 | the m-th piece of a populated row is at x = y%2 + 2m, and its team is Black on rows 0-2 and Red elsewhere |
| Position.StandardSetupExtend | CLICheckers.java:522-530 | placing the next piece of a row extends the list built so far by exactly that piece |
| Position.StandardSetupPieces | CLICheckers.java:515-533 | the setup has 24 pieces: the first 12 are Black, on rows 0-2; the other 12 are Red, on rows 5-7; each piece is uncrowned and on the board, with x and y of equal parity |
| Position.StandardSetupValid | CLICheckers.java:515-533 | no two pieces of the standard setup share a square, and all of them are on the 8x8 board |
| Position.StandardSetupSquares | CLICheckers.java:515-533 | a square is occupied in the standard setup exactly when it is on the board, its x and y have equal parity, and it lies in rows 0-2 or 5-7 |
| MoveGen.PossibleMoves | CLICheckers.java:319-345 | a king gets 4 candidates and any other piece 2; a square is a candidate exactly when it is one diagonal step of the offset (1 for a move, 2 for a capture) that goes toward decreasing y for Red, toward increasing y for Black, either way for a king |
| MoveGen.HalfTowardZero | CLICheckers.java:221-222 | halving rounds toward zero: the remainder is 0 or 1 for a non-negative number and 0 or -1 for a negative one |
| MoveGen.CapturedSquare | CLICheckers.java:220-224 | when the coordinate sums are even, the jumped square is the exact midpoint of start and end |
| MoveGen.CapturedSquareOfCandidate | CLICheckers.java:220-224 | for every capture candidate, the jumped square is the diagonal neighbour on the way to the landing square, never the capturer's own square |
| MoveGen.IsValidMove | CLICheckers.java:373-376 | a move is valid exactly when it lands on the board and on a square that is not among the occupied squares |
| MoveGen.IsValidCapture | CLICheckers.java:392-399 | a capture is valid exactly when it is a valid move and the jumped square holds a piece of another team in the square-to-piece map |
| MoveGen.KeepValid | CLICheckers.java:293-304 | the kept candidates are exactly the candidates that pass the move or capture filter, and there are no more of them than candidates |
| MoveGen.Destinations | CLICheckers.java:293-304 | a piece has at most 4 legal destinations if it is a king and at most 2 otherwise, and each of them is a candidate for it and on the board |
| MoveGen.DestinationsExact | CLICheckers.java:355-399 | when no two pieces share a square, a square is a legal destination exactly when it is a candidate, on the board and empty, and, for a capture, the jumped square holds a piece of the other team |
| MoveGen.TeamCheckers | CLICheckers.java:289-290 | the filtered list holds exactly the pieces of the given team |
| MoveGen.CollectMoves | CLICheckers.java:292-308 | the result has an entry for exactly the keys of the given pieces; every piece that no other piece equals is mapped to its legal destinations in the current position |
| MoveGen.KeyUniqueInValid | CLICheckers.java:464-467 | when no two pieces share a square, checker equality never confuses two pieces of a sub-list of the position |
| MoveGen.ValidMovesForTeam | CLICheckers.java:287-309 | the keys are exactly those of the team's pieces; when no two pieces share a square, each piece of the team maps to its legal destinations |
| MoveGen.AllValidMoves | CLICheckers.java:255-275 | the keys are exactly those of all pieces; when no two pieces share a square, each piece maps to its legal destinations |
| Turns.ShouldBeKing | CLICheckers.java:233-244 | a piece is due for crowning exactly when it stands on row 0 (Red) or row boardSize - 1 (Black) |
| Turns.CrowningRowIsFarEdge | CLICheckers.java:233-244 | for an uncrowned piece on a board of size at least 2, the crowning row is exactly where none of its forward one-step diagonals remains on the board |
| Turns.Relocate | CLICheckers.java:169-172 | a moved piece stands on its destination, keeps its team, and is a king exactly when it was one already or the destination lies on its crowning row; crowning is never undone |
| Turns.SimpleMoveKeepsValid | CLICheckers.java:199-209 | a legal simple move keeps every piece on the board and every square single |
| Turns.Move | CLICheckers.java:199-209 | the move succeeds exactly when the destination is among the piece's freshly computed legal moves; on success only that piece changes, relocated and possibly crowned; on failure nothing changes; no piece is removed and the completion flag is untouched |
| Turns.RemoveAt | CLICheckers.java:168 | removing one piece shortens the list by one and shifts the later pieces down by one |
| Turns.JumpResult | CLICheckers.java:163-172 | the position after a jump is one piece shorter, and the capturer's new index lies inside it |
| Turns.JumpResultShape | CLICheckers.java:168-172 | after a jump the list is one shorter, the capturer is relocated at its new index, and every other piece except the removed one is unchanged |
| Turns.JumpedCheckerIsOpponent | CLICheckers.java:162-167 | for a legal capture, the search for the jumped square finds a piece, and that piece is neither the capturer nor of its team |
| Turns.JumpKeepsValid | CLICheckers.java:168-172 | a legal jump keeps every piece on the board and every square single |
| Turns.JumpChangesOnePiece | CLICheckers.java:163-172 | a legal jump removes exactly one piece, the opposing piece on the jumped square; it moves the capturer to the landing square; no other piece changes and the position stays valid |
| Turns.HasOtherTeam | CLICheckers.java:173-176 | true exactly when some piece of a team other than the given one is still on the board; `CaptureCompletion` ties the completion flag to it |
| Turns.CaptureRun | CLICheckers.java:153-187 | a capture sequence never runs more jumps than there are landing squares, and the capturer's index stays within the list |
| Turns.CaptureRunStops | CLICheckers.java:157-184 | a sequence that is already complete, is empty, or whose first landing square is illegal changes nothing and runs no jump |
| Turns.CaptureRunJumps | CLICheckers.java:161-180 | a legal first landing square with a piece on the jumped square runs that jump, then the rest of the sequence from the position the jump leaves |
| Turns.CaptureStep | CLICheckers.java:161-180 | in a valid position, a legal first jump leaves a valid position that is one piece shorter, with the capturer relocated, and the rest of the run continues from there |
| Turns.CaptureKeepsPosition | CLICheckers.java:153-187 | a capture sequence keeps the position valid and removes exactly one piece per executed jump; the capturer keeps its team and is never uncrowned; the completion flag is never reset; with no jump nothing changes |
| Turns.CaptureSucceedsIffFirstLegal | CLICheckers.java:157-179 | the sequence succeeds exactly when the game is not complete and the first landing square is a legal capture for the piece |
| Turns.CaptureCompletion | CLICheckers.java:173-178 | starting from a running game, the game ends up complete exactly when at least one jump ran and no piece of another team than the capturer's is left |
| Turns.CaptureStopsAtIllegal | CLICheckers.java:161-184 | a sequence that ends with landing squares left and the game still running stopped at the first one that is not a legal capture in the position reached, after executing every earlier one |
| Turns.SingleJumpEndsGame | CLICheckers.java:153-187 | on a 4x4 board, the lone Red piece at (2, 2) jumps the lone Black piece at (1, 1) and lands on (0, 0); it is crowned there, the game is complete, and the second landing square is never tried |
| Turns.Jump | CLICheckers.java:168-178 | in place, the jumped piece leaves the list and the capturer is relocated and possibly crowned at its new index; the game is marked complete exactly when no piece of another team is left; the position stays valid |
| Turns.TryCapture | CLICheckers.java:161-184 | one landing square is accepted exactly when it is among the capturer's freshly computed captures; when accepted, a piece is found on the jumped square and it is not the capturer; the new list is that piece removed and the capturer relocated (and possibly crowned) at its shifted index; the flag is set exactly when no piece of another team is left; a rejected square changes nothing |
| Turns.Capture | CLICheckers.java:153-187 | the loop leaves the position, completion flag and success result that the capture sequence defines, and the position stays valid |
| Turns.ExecuteTurn | CLICheckers.java:93-124 | a skip succeeds and changes nothing; a start square with no piece fails and changes nothing; otherwise the first piece on the start square moves or captures, whatever its team, with the results stated by the move and capture rules |

## Left out

- Console input and output are not modelled: the main loop, the prompts, the move listing and
  the board printing. The turn toggle in the main loop is also left out. It is interactive
  control flow.
- Text parsing of a turn is not modelled: tokenizing, number parsing and the catch of malformed
  input. `ExecuteTurn` takes an already parsed `Request`. The source always reads at least one
  landing square for a capture. The model's `CaptureRequest` may carry an empty list, which
  runs no jump and fails.
- `hashCode` of locations and checkers is not modelled. Maps are keyed by value: squares by
  `Location`, pieces by `CheckerKey`.
- Machine integers: coordinates and the board size are unbounded integers, so 32-bit overflow
  of Java `int` is not modelled.
- Object identity of pieces is not modelled. A piece is addressed by its index in the list.
  The source's in-place updates of a `Checker` object become a replacement of the list entry.
- Position.Game.LocationToCheckerMapping: the overwrite when two pieces share a square is
  modelled by `PieceMap`. The lemmas that tell which piece wins (`PieceMapAt`,
  `PieceMapOfValid`) state it only for a piece with no later piece on its square.
- MoveGen.ValidMovesForTeam: the value of each entry is stated only when no two pieces share a
  square. Otherwise two pieces that are equal under checker equality may collide as map keys.
- MoveGen.AllValidMoves: the value of each entry is stated only when no two pieces share a
  square, for the same reason.
- Turns.Move: requires the position invariant (`Game.Valid()`), which the source does not
  check. Every game built by the two constructors and changed only by `Move`, `Capture` and
  `ExecuteTurn` satisfies it.
- Turns.Capture: requires the position invariant too.
  - It makes the piece-keyed capture map unambiguous.
  - It makes the removal of "the piece equal to the one found" the same as removing the piece
    at the found index.
  - The source's branch for a jumped square with no piece is kept in the model. It skips to
    the next landing square without stopping, as the source does, and it is proved unreachable.
- Turns.ExecuteTurn: requires the position invariant, for the same reasons as `Move` and
  `Capture`.

/**
 * The move generator: the diagonal candidates of a checker, the board-size,
 * occupancy and capture filters, and the per-checker lists of legal
 * destinations for a team or for the whole board.
 */
module MoveGen {
  import opened Position

  /** How far a checker travels along each axis: one square for a move, two for a capture. */
  function Offset(isCapture: bool): int
  {
    if isCapture then 2 else 1
  }

  /**
   * `d` is a diagonal square at distance `offset` that checker `c` may aim for:
   * any of the four for a king, the two on its own forward side otherwise
   * (decreasing y for Red, increasing y for Black).
   */
  predicate IsCandidate(c: Checker, d: Location, offset: int)
  {
    (d.x == c.location.x + offset || d.x == c.location.x - offset)
    && if c.isKing then d.y == c.location.y + offset || d.y == c.location.y - offset
       else if c.team == Red then d.y == c.location.y - offset
       else d.y == c.location.y + offset
  }

  /** Every square a checker could try to reach, before any filtering. */
  function PossibleMoves(checker: Checker, isCapture: bool): (r: seq<Location>)
    ensures |r| == if checker.isKing then 4 else 2
    ensures forall d :: d in r <==> IsCandidate(checker, d, Offset(isCapture))
  {
    var current := checker.location;
    var offset := Offset(isCapture);
    var upRight := Location(current.x + offset, current.y - offset);
    var upLeft := Location(current.x - offset, current.y - offset);
    var downRight := Location(current.x + offset, current.y + offset);
    var downLeft := Location(current.x - offset, current.y + offset);
    if checker.isKing then [upRight, upLeft, downRight, downLeft]
    else if checker.team == Red then [upRight, upLeft]
    else [downRight, downLeft]
  }

  /** Integer halving that rounds toward zero, as Java's `/` does. */
  function HalfTowardZero(n: int): (h: int)
    ensures 0 <= n ==> 0 <= n - 2 * h <= 1
    ensures n < 0 ==> -1 <= n - 2 * h <= 0
  {
    if 0 <= n then n / 2 else -((-n) / 2)
  }

  /** The square between the start and the end of a capture, where the captured checker stands. */
  function CapturedSquare(start: Location, end: Location): (m: Location)
    ensures (start.x + end.x) % 2 == 0 ==> 2 * m.x == start.x + end.x
    ensures (start.y + end.y) % 2 == 0 ==> 2 * m.y == start.y + end.y
  {
    Location(HalfTowardZero(start.x + end.x), HalfTowardZero(start.y + end.y))
  }

  /** For a capture candidate the captured square is the diagonal neighbour on the way to it. */
  lemma CapturedSquareOfCandidate(c: Checker, d: Location)
    requires IsCandidate(c, d, 2)
    ensures var m := CapturedSquare(c.location, d);
            2 * m.x == c.location.x + d.x && 2 * m.y == c.location.y + d.y
            && (m.x == c.location.x + 1 || m.x == c.location.x - 1)
            && (m.y == c.location.y + 1 || m.y == c.location.y - 1)
            && m != c.location
  {
  }

  /** A plain move must land on the board and on an empty square. */
  predicate IsValidMove(boardSize: int, currentChecker: Checker, proposedMove: Location,
                        allCheckerLocations: set<Location>)
  {
    OnBoard(boardSize, proposedMove) && proposedMove !in allCheckerLocations
  }

  /** A capture must be a valid move whose jumped square holds a checker of the other team. */
  predicate IsValidCapture(boardSize: int, currentChecker: Checker, proposedCapture: Location,
                           locationToChecker: map<Location, Checker>)
  {
    var toCapture := CapturedSquare(currentChecker.location, proposedCapture);
    var hasCheckerToCapture := toCapture in locationToChecker
                               && locationToChecker[toCapture].team != currentChecker.team;
    IsValidMove(boardSize, currentChecker, proposedCapture, locationToChecker.Keys) && hasCheckerToCapture
  }

  /** The filter applied to a candidate: the capture test in capture mode, the move test otherwise. */
  predicate Keeps(boardSize: int, c: Checker, d: Location, isCapture: bool,
                  locationToChecker: map<Location, Checker>)
  {
    if isCapture then IsValidCapture(boardSize, c, d, locationToChecker)
    else IsValidMove(boardSize, c, d, locationToChecker.Keys)
  }

  /** The candidates that pass the filter, in candidate order. */
  function KeepValid(candidates: seq<Location>, boardSize: int, c: Checker, isCapture: bool,
                     locationToChecker: map<Location, Checker>): (r: seq<Location>)
    ensures |r| <= |candidates|
    ensures forall d :: d in r <==> d in candidates && Keeps(boardSize, c, d, isCapture, locationToChecker)
  {
    if candidates == [] then []
    else
      var init := candidates[..|candidates| - 1];
      var d := candidates[|candidates| - 1];
      var rest := KeepValid(init, boardSize, c, isCapture, locationToChecker);
      assert candidates == init + [d];
      if Keeps(boardSize, c, d, isCapture, locationToChecker) then rest + [d] else rest
  }

  /** The legal destinations of checker `c` in the position `cs`, recomputed from the position. */
  function Destinations(cs: seq<Checker>, boardSize: int, c: Checker, isCapture: bool): (r: seq<Location>)
    ensures |r| <= if c.isKing then 4 else 2
    ensures forall d :: d in r ==> IsCandidate(c, d, Offset(isCapture)) && OnBoard(boardSize, d)
  {
    KeepValid(PossibleMoves(c, isCapture), boardSize, c, isCapture, PieceMap(cs))
  }

  /**
   * The filters are exact: a square is a legal destination if and only if it is
   * a candidate for the checker, lies on the board and is empty, and, for a
   * capture, the jumped square holds a checker of the other team.
   */
  lemma DestinationsExact(cs: seq<Checker>, boardSize: int, c: Checker, isCapture: bool, d: Location)
    requires NoSharedSquares(cs)
    ensures d in Destinations(cs, boardSize, c, isCapture) <==>
              IsCandidate(c, d, Offset(isCapture)) && OnBoard(boardSize, d) && !Occupied(cs, d)
              && (isCapture ==> OpponentAt(cs, CapturedSquare(c.location, d), c.team))
  {
    PieceMapOfValid(cs);
    var board := PieceMap(cs);
    var m := CapturedSquare(c.location, d);
    if OpponentAt(cs, m, c.team) {
      var k :| 0 <= k < |cs| && cs[k].location == m && cs[k].team != c.team;
      assert board[m] == cs[k];
    }
    if m in board {
      var k :| 0 <= k < |cs| && cs[k].location == m;
      assert board[m] == cs[k];
    }
  }

  /** The checkers of one team, in list order. */
  function TeamCheckers(cs: seq<Checker>, team: Team): (r: seq<Checker>)
    ensures forall p :: p in r <==> p in cs && p.team == team
  {
    if cs == [] then []
    else
      var rest := TeamCheckers(cs[1..], team);
      assert forall p :: p in cs <==> p == cs[0] || p in cs[1..];
      if cs[0].team == team then [cs[0]] + rest else rest
  }

  /** No other checker of `pieces` is equal to `p` under checker equality. */
  ghost predicate KeyUnique(pieces: seq<Checker>, p: Checker)
  {
    forall q :: q in pieces && q.Key() == p.Key() ==> q == p
  }

  /**
   * Maps each checker of `pieces` to its legal destinations in the game's
   * current position; a later checker equal to an earlier one replaces its entry.
   */
  method CollectMoves(game: Game, isCapture: bool, pieces: seq<Checker>)
    returns (moves: map<CheckerKey, seq<Location>>)
    ensures forall key :: key in moves <==> exists p :: p in pieces && p.Key() == key
    ensures forall p :: p in pieces && KeyUnique(pieces, p) ==>
              p.Key() in moves && moves[p.Key()] == Destinations(game.checkers, game.boardSize, p, isCapture)
  {
    var locationToChecker := game.LocationToCheckerMapping();
    moves := map[];
    for n := 0 to |pieces|
      invariant forall key :: key in moves <==> exists k :: 0 <= k < n && pieces[k].Key() == key
      invariant forall key :: key in moves ==>
                  exists k :: 0 <= k < n && pieces[k].Key() == key
                              && moves[key] == Destinations(game.checkers, game.boardSize, pieces[k], isCapture)
    {
      var checker := pieces[n];
      var allPossibleMoves := PossibleMoves(checker, isCapture);
      var validMoves := [];
      for m := 0 to |allPossibleMoves|
        invariant validMoves == KeepValid(allPossibleMoves[..m], game.boardSize, checker, isCapture, locationToChecker)
      {
        assert allPossibleMoves[..m + 1][..m] == allPossibleMoves[..m];
        var move := allPossibleMoves[m];
        if isCapture {
          if IsValidCapture(game.boardSize, checker, move, locationToChecker) {
            validMoves := validMoves + [move];
          }
        } else {
          if IsValidMove(game.boardSize, checker, move, locationToChecker.Keys) {
            validMoves := validMoves + [move];
          }
        }
      }
      assert allPossibleMoves[..|allPossibleMoves|] == allPossibleMoves;
      moves := moves[checker.Key() := validMoves];
    }
    forall p | p in pieces && KeyUnique(pieces, p)
      ensures p.Key() in moves && moves[p.Key()] == Destinations(game.checkers, game.boardSize, p, isCapture)
    {
      var i :| 0 <= i < |pieces| && pieces[i] == p;
      assert p.Key() in moves;
      var k :| 0 <= k < |pieces| && pieces[k].Key() == p.Key()
               && moves[p.Key()] == Destinations(game.checkers, game.boardSize, pieces[k], isCapture);
      assert pieces[k] == p;
    }
  }

  /** Under the position invariant, checker equality never confuses two checkers of the list. */
  lemma KeyUniqueInValid(cs: seq<Checker>, pieces: seq<Checker>, p: Checker)
    requires NoSharedSquares(cs)
    requires forall q :: q in pieces ==> q in cs
    requires p in pieces
    ensures KeyUnique(pieces, p)
  {
    forall q | q in pieces && q.Key() == p.Key() ensures q == p {
      var a :| 0 <= a < |cs| && cs[a] == p;
      var b :| 0 <= b < |cs| && cs[b] == q;
      KeyIdentifiesChecker(cs, a, b);
    }
  }

  /**
   * The legal moves (or captures) of every checker of one team, each checker
   * mapped to its destinations in the current position.
   */
  method ValidMovesForTeam(game: Game, isCapture: bool, team: Team)
    returns (moves: map<CheckerKey, seq<Location>>)
    ensures forall key :: key in moves <==> exists p :: p in game.checkers && p.team == team && p.Key() == key
    ensures NoSharedSquares(game.checkers) ==>
              forall p :: p in game.checkers && p.team == team ==>
                p.Key() in moves && moves[p.Key()] == Destinations(game.checkers, game.boardSize, p, isCapture)
  {
    var checkersForTeam := TeamCheckers(game.checkers, team);
    moves := CollectMoves(game, isCapture, checkersForTeam);
    if NoSharedSquares(game.checkers) {
      forall p | p in game.checkers && p.team == team
        ensures p.Key() in moves && moves[p.Key()] == Destinations(game.checkers, game.boardSize, p, isCapture)
      {
        KeyUniqueInValid(game.checkers, checkersForTeam, p);
      }
    }
  }

  /** The legal moves (or captures) of every checker on the board, whatever its team. */
  method AllValidMoves(game: Game, isCapture: bool)
    returns (moves: map<CheckerKey, seq<Location>>)
    ensures forall key :: key in moves <==> exists p :: p in game.checkers && p.Key() == key
    ensures NoSharedSquares(game.checkers) ==>
              forall p :: p in game.checkers ==>
                p.Key() in moves && moves[p.Key()] == Destinations(game.checkers, game.boardSize, p, isCapture)
  {
    moves := CollectMoves(game, isCapture, game.checkers);
    if NoSharedSquares(game.checkers) {
      forall p | p in game.checkers
        ensures p.Key() in moves && moves[p.Key()] == Destinations(game.checkers, game.boardSize, p, isCapture)
      {
        KeyUniqueInValid(game.checkers, game.checkers, p);
      }
    }
  }
}

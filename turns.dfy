/**
 * The turn executor: crowning, simple moves, capture sequences and the
 * dispatch of a structured turn request.
 */
module Turns {
  import opened Position
  import opened MoveGen

  /** The row on which a checker of `team` is crowned: 0 for Red, boardSize - 1 for Black. */
  function CrowningRow(team: Team, boardSize: int): int
  {
    if team == Red then 0 else boardSize - 1
  }

  /** The back-rank rule, applied to a checker at its new square. */
  function ShouldBeKing(checker: Checker, boardSize: int): (r: bool)
    ensures r <==> checker.location.y == CrowningRow(checker.team, boardSize)
  {
    if checker.team == Red then checker.location.y == 0
    else checker.location.y == boardSize - 1
  }

  /**
   * The crowning row is the far edge for an uncrowned checker: on a board of
   * size at least 2, it stands there exactly when none of its forward
   * one-square diagonals is on the board.
   */
  lemma CrowningRowIsFarEdge(c: Checker, boardSize: int)
    requires !c.isKing && 2 <= boardSize && OnBoard(boardSize, c.location)
    ensures ShouldBeKing(c, boardSize) <==>
              forall d :: IsCandidate(c, d, 1) ==> !OnBoard(boardSize, d)
  {
    if !ShouldBeKing(c, boardSize) {
      var x := if c.location.x + 1 < boardSize then c.location.x + 1 else c.location.x - 1;
      var y := if c.team == Red then c.location.y - 1 else c.location.y + 1;
      assert IsCandidate(c, Location(x, y), 1) && OnBoard(boardSize, Location(x, y));
    }
  }

  /** A checker moved to `dest`, crowned there if it was not a king and `dest` is on its crowning row. */
  function Relocate(checker: Checker, dest: Location, boardSize: int): (r: Checker)
    ensures r.location == dest && r.team == checker.team
    ensures r.isKing <==> checker.isKing || dest.y == CrowningRow(checker.team, boardSize)
  {
    var moved := checker.(location := dest);
    if moved.isKing then moved else moved.(isKing := ShouldBeKing(moved, boardSize))
  }

  /** A legal simple move keeps every checker on the board and every square single. */
  lemma SimpleMoveKeepsValid(cs: seq<Checker>, boardSize: int, i: nat, dest: Location)
    requires ValidPosition(cs, boardSize) && i < |cs|
    requires dest in Destinations(cs, boardSize, cs[i], false)
    ensures ValidPosition(cs[i := Relocate(cs[i], dest, boardSize)], boardSize)
  {
    DestinationsExact(cs, boardSize, cs[i], false, dest);
  }

  /**
   * Moves checker `i` to `move` when `move` is among its freshly computed
   * legal moves, crowning it on its back rank; otherwise changes nothing.
   * No checker is removed and the completion flag is left alone.
   */
  method Move(game: Game, i: nat, move: Location) returns (success: bool)
    requires game.Valid() && i < |game.checkers|
    modifies game
    ensures game.Valid()
    ensures success <==> move in Destinations(old(game.checkers), game.boardSize, old(game.checkers)[i], false)
    ensures game.checkers == if success then old(game.checkers)[i := Relocate(old(game.checkers)[i], move, game.boardSize)]
                             else old(game.checkers)
    ensures game.boardSize == old(game.boardSize) && game.isComplete == old(game.isComplete)
  {
    var checker := game.checkers[i];
    var validMoves := ValidMovesForTeam(game, false, checker.team);
    assert checker in game.checkers;
    if move in validMoves[checker.Key()] {
      SimpleMoveKeepsValid(game.checkers, game.boardSize, i, move);
      checker := checker.(location := move);
      if !checker.isKing {
        checker := checker.(isKing := ShouldBeKing(checker, game.boardSize));
      }
      game.checkers := game.checkers[i := checker];
      return true;
    }
    return false;
  }

  /** The list without its j-th element. */
  function RemoveAt(cs: seq<Checker>, j: nat): (r: seq<Checker>)
    requires j < |cs|
    ensures |r| == |cs| - 1
    ensures forall k :: 0 <= k < |r| ==> r[k] == cs[if k < j then k else k + 1]
  {
    cs[..j] + cs[j + 1..]
  }

  /** Where checker `i` sits once checker `j` has been taken out of the list. */
  function CapturerIndexAfter(i: nat, j: nat): nat
  {
    if j < i then i - 1 else i
  }

  /** The position after checker `i` jumps to `dest`, taking checker `j` off the board. */
  function JumpResult(cs: seq<Checker>, boardSize: int, i: nat, j: nat, dest: Location): (r: seq<Checker>)
    requires i < |cs| && j < |cs| && i != j
    ensures |r| == |cs| - 1 && CapturerIndexAfter(i, j) < |r|
  {
    RemoveAt(cs, j)[CapturerIndexAfter(i, j) := Relocate(cs[i], dest, boardSize)]
  }

  /** The jumper lands at its new index; every other checker but the removed one keeps its value, shifted past the gap. */
  lemma JumpResultShape(cs: seq<Checker>, boardSize: int, i: nat, j: nat, dest: Location)
    requires i < |cs| && j < |cs| && i != j
    ensures var next := JumpResult(cs, boardSize, i, j, dest);
            |next| == |cs| - 1
            && next[CapturerIndexAfter(i, j)] == Relocate(cs[i], dest, boardSize)
            && forall k :: 0 <= k < |cs| && k != i && k != j ==> next[if k < j then k else k - 1] == cs[k]
  {
  }

  /** The checker found on the jumped square of a legal capture is an opponent, not the jumper. */
  lemma JumpedCheckerIsOpponent(cs: seq<Checker>, boardSize: int, i: nat, dest: Location)
    requires NoSharedSquares(cs) && i < |cs|
    requires dest in Destinations(cs, boardSize, cs[i], true)
    ensures var toCapture := CapturedSquare(cs[i].location, dest);
            IndexAt(cs, toCapture).Some?
            && IndexAt(cs, toCapture).value != i
            && cs[IndexAt(cs, toCapture).value].team != cs[i].team
  {
    var m := CapturedSquare(cs[i].location, dest);
    DestinationsExact(cs, boardSize, cs[i], true, dest);
    CapturedSquareOfCandidate(cs[i], dest);
    var w :| 0 <= w < |cs| && cs[w].location == m && cs[w].team != cs[i].team;
    var j := IndexAt(cs, m).value;
    assert j == w;
  }

  /** A legal jump keeps every checker on the board and every square single. */
  lemma JumpKeepsValid(cs: seq<Checker>, boardSize: int, i: nat, j: nat, dest: Location)
    requires ValidPosition(cs, boardSize) && i < |cs| && j < |cs| && i != j
    requires dest in Destinations(cs, boardSize, cs[i], true)
    ensures ValidPosition(JumpResult(cs, boardSize, i, j, dest), boardSize)
  {
    DestinationsExact(cs, boardSize, cs[i], true, dest);
    var next := JumpResult(cs, boardSize, i, j, dest);
    var at := CapturerIndexAfter(i, j);
    assert forall k :: 0 <= k < |next| && k != at ==> next[k] == cs[if k < j then k else k + 1];
    forall a, b | 0 <= a < b < |next| ensures next[a].location != next[b].location {
      var a0 := if a < j then a else a + 1;
      var b0 := if b < j then b else b + 1;
      if a == at {
        assert next[b] == cs[b0];
      } else if b == at {
        assert next[a] == cs[a0];
      } else {
        assert next[a] == cs[a0] && next[b] == cs[b0];
      }
    }
  }

  /**
   * A legal jump changes exactly one thing besides the jumper: the checker on
   * the jumped square, which belongs to the other team, is taken off the board.
   * The jumper lands on `dest` (crowned if due); no other checker changes; the
   * position stays valid.
   */
  lemma JumpChangesOnePiece(cs: seq<Checker>, boardSize: int, i: nat, dest: Location)
    requires ValidPosition(cs, boardSize) && i < |cs|
    requires dest in Destinations(cs, boardSize, cs[i], true)
    ensures IndexAt(cs, CapturedSquare(cs[i].location, dest)).Some?
    ensures IndexAt(cs, CapturedSquare(cs[i].location, dest)).value != i
    ensures var j := IndexAt(cs, CapturedSquare(cs[i].location, dest)).value;
            var next := JumpResult(cs, boardSize, i, j, dest);
            cs[j].team != cs[i].team
            && |next| == |cs| - 1
            && ValidPosition(next, boardSize)
            && next[CapturerIndexAfter(i, j)] == Relocate(cs[i], dest, boardSize)
            && forall k :: 0 <= k < |cs| && k != i && k != j ==> next[if k < j then k else k - 1] == cs[k]
  {
    JumpedCheckerIsOpponent(cs, boardSize, i, dest);
    var j := IndexAt(cs, CapturedSquare(cs[i].location, dest)).value;
    JumpResultShape(cs, boardSize, i, j, dest);
    JumpKeepsValid(cs, boardSize, i, j, dest);
  }

  /** Some checker of a team other than `team` is still on the board. */
  predicate HasOtherTeam(cs: seq<Checker>, team: Team)
  {
    exists k :: 0 <= k < |cs| && cs[k].team != team
  }

  /** What a capture sequence leaves behind: the checkers, the capturer's index, the flag and how many jumps ran. */
  datatype CaptureOutcome = CaptureOutcome(checkers: seq<Checker>, index: nat, isComplete: bool, jumps: nat)

  /**
   * A capture sequence for checker `i`, one requested landing square after
   * another. It stops once the game is complete or at the first landing square
   * that is not a legal capture in the position reached; otherwise it takes
   * the jumped checker off the board, moves and possibly crowns the capturer,
   * and marks the game complete when no checker of another team is left.
   */
  function CaptureRun(cs: seq<Checker>, boardSize: int, i: nat, complete: bool, dests: seq<Location>): (r: CaptureOutcome)
    requires i < |cs|
    ensures r.index < |r.checkers|
    ensures r.jumps <= |dests|
    decreases |dests|
  {
    if dests == [] || complete then CaptureOutcome(cs, i, complete, 0)
    else if dests[0] !in Destinations(cs, boardSize, cs[i], true) then CaptureOutcome(cs, i, complete, 0)
    else
      var toCapture := CapturedSquare(cs[i].location, dests[0]);
      match IndexAt(cs, toCapture)
      case None => CaptureRun(cs, boardSize, i, complete, dests[1..])
      case Some(j) =>
        CapturedSquareOfCandidate(cs[i], dests[0]);
        var next := JumpResult(cs, boardSize, i, j, dests[0]);
        var at := CapturerIndexAfter(i, j);
        var done := !HasOtherTeam(next, cs[i].team);
        var rest := CaptureRun(next, boardSize, at, done, dests[1..]);
        rest.(jumps := rest.jumps + 1)
  }

  /** A capture sequence that is over, empty, or whose first landing square is illegal changes nothing. */
  lemma CaptureRunStops(cs: seq<Checker>, boardSize: int, i: nat, complete: bool, dests: seq<Location>)
    requires i < |cs|
    requires complete || dests == [] || dests[0] !in Destinations(cs, boardSize, cs[i], true)
    ensures CaptureRun(cs, boardSize, i, complete, dests) == CaptureOutcome(cs, i, complete, 0)
  {
  }

  /** One legal jump, then the rest of the sequence from the position it leaves. */
  lemma CaptureRunJumps(cs: seq<Checker>, boardSize: int, i: nat, dests: seq<Location>, j: nat)
    requires i < |cs| && dests != [] && dests[0] in Destinations(cs, boardSize, cs[i], true)
    requires IndexAt(cs, CapturedSquare(cs[i].location, dests[0])) == Some(j)
    ensures j < |cs| && j != i
    ensures var next := JumpResult(cs, boardSize, i, j, dests[0]);
            var r := CaptureRun(next, boardSize, CapturerIndexAfter(i, j), !HasOtherTeam(next, cs[i].team), dests[1..]);
            CaptureRun(cs, boardSize, i, false, dests) == r.(jumps := r.jumps + 1)
  {
    CapturedSquareOfCandidate(cs[i], dests[0]);
  }

  /**
   * The first jump of a sequence whose first landing square is legal, in a
   * valid position: the position it leaves is valid, one checker shorter,
   * with the capturer relocated at index `at`; the rest of the run continues
   * from there.
   */
  lemma CaptureStep(cs: seq<Checker>, boardSize: int, i: nat, dests: seq<Location>)
    returns (next: seq<Checker>, at: nat)
    requires ValidPosition(cs, boardSize) && i < |cs|
    requires dests != [] && dests[0] in Destinations(cs, boardSize, cs[i], true)
    ensures ValidPosition(next, boardSize) && |next| == |cs| - 1 && at < |next|
    ensures next[at] == Relocate(cs[i], dests[0], boardSize)
    ensures var r := CaptureRun(next, boardSize, at, !HasOtherTeam(next, cs[i].team), dests[1..]);
            CaptureRun(cs, boardSize, i, false, dests) == r.(jumps := r.jumps + 1)
  {
    JumpedCheckerIsOpponent(cs, boardSize, i, dests[0]);
    var j := IndexAt(cs, CapturedSquare(cs[i].location, dests[0])).value;
    assert IndexAt(cs, CapturedSquare(cs[i].location, dests[0])) == Some(j);
    JumpKeepsValid(cs, boardSize, i, j, dests[0]);
    CaptureRunJumps(cs, boardSize, i, dests, j);
    next := JumpResult(cs, boardSize, i, j, dests[0]);
    at := CapturerIndexAfter(i, j);
  }

  /**
   * A capture sequence keeps the position valid, removes exactly one checker
   * per executed jump, keeps the capturer's team, never uncrowns it, never
   * clears the completion flag, and changes nothing when no jump runs.
   */
  lemma {:induction false} CaptureKeepsPosition(cs: seq<Checker>, boardSize: int, i: nat, complete: bool, dests: seq<Location>)
    requires ValidPosition(cs, boardSize) && i < |cs|
    ensures var r := CaptureRun(cs, boardSize, i, complete, dests);
            ValidPosition(r.checkers, boardSize)
            && |r.checkers| + r.jumps == |cs|
            && r.checkers[r.index].team == cs[i].team
            && (cs[i].isKing ==> r.checkers[r.index].isKing)
            && (complete ==> r.isComplete)
            && (r.jumps == 0 ==> r.checkers == cs && r.index == i && r.isComplete == complete)
    decreases |dests|
  {
    if dests == [] || complete || dests[0] !in Destinations(cs, boardSize, cs[i], true) {
      CaptureRunStops(cs, boardSize, i, complete, dests);
    } else {
      var next, at := CaptureStep(cs, boardSize, i, dests);
      CaptureKeepsPosition(next, boardSize, at, !HasOtherTeam(next, cs[i].team), dests[1..]);
    }
  }

  /**
   * The sequence succeeds (runs at least one jump) exactly when the game is
   * not already complete and the first requested landing square is a legal
   * capture for the checker.
   */
  lemma CaptureSucceedsIffFirstLegal(cs: seq<Checker>, boardSize: int, i: nat, complete: bool, dests: seq<Location>)
    requires ValidPosition(cs, boardSize) && i < |cs|
    ensures CaptureRun(cs, boardSize, i, complete, dests).jumps > 0 <==>
              !complete && dests != [] && dests[0] in Destinations(cs, boardSize, cs[i], true)
  {
    if !complete && dests != [] && dests[0] in Destinations(cs, boardSize, cs[i], true) {
      var next, at := CaptureStep(cs, boardSize, i, dests);
    } else {
      CaptureRunStops(cs, boardSize, i, complete, dests);
    }
  }

  /**
   * The completion flag, when it was clear, ends up set exactly when at least
   * one jump ran and no checker of a team other than the capturer's is left.
   */
  lemma {:induction false} CaptureCompletion(cs: seq<Checker>, boardSize: int, i: nat, dests: seq<Location>)
    requires ValidPosition(cs, boardSize) && i < |cs|
    ensures var r := CaptureRun(cs, boardSize, i, false, dests);
            r.isComplete <==> r.jumps > 0 && !HasOtherTeam(r.checkers, cs[i].team)
    decreases |dests|
  {
    if dests == [] || dests[0] !in Destinations(cs, boardSize, cs[i], true) {
      CaptureRunStops(cs, boardSize, i, false, dests);
    } else {
      var next, at := CaptureStep(cs, boardSize, i, dests);
      var done := !HasOtherTeam(next, cs[i].team);
      CaptureKeepsPosition(next, boardSize, at, done, dests[1..]);
      if !done {
        CaptureCompletion(next, boardSize, at, dests[1..]);
      }
    }
  }

  /**
   * A sequence that ends with requests left over and the game still running
   * was stopped by the first request that is not a legal capture in the
   * position reached; every earlier request was executed.
   */
  lemma {:induction false} CaptureStopsAtIllegal(cs: seq<Checker>, boardSize: int, i: nat, complete: bool, dests: seq<Location>)
    requires ValidPosition(cs, boardSize) && i < |cs|
    ensures var r := CaptureRun(cs, boardSize, i, complete, dests);
            r.jumps < |dests| && !r.isComplete ==>
              dests[r.jumps] !in Destinations(r.checkers, boardSize, r.checkers[r.index], true)
    decreases |dests|
  {
    if dests == [] || complete || dests[0] !in Destinations(cs, boardSize, cs[i], true) {
      CaptureRunStops(cs, boardSize, i, complete, dests);
    } else {
      var next, at := CaptureStep(cs, boardSize, i, dests);
      var rest := dests[1..];
      CaptureStopsAtIllegal(next, boardSize, at, !HasOtherTeam(next, cs[i].team), rest);
      var r := CaptureRun(next, boardSize, at, !HasOtherTeam(next, cs[i].team), rest);
      assert r.jumps < |rest| ==> dests[r.jumps + 1] == rest[r.jumps];
    }
  }

  /**
   * One jump of a capture sequence, in place: checker `j` leaves the list, the
   * capturer `at` moves to `capture` and is crowned if due, and the game is
   * marked complete when no checker of another team is left.
   */
  method Jump(game: Game, at: nat, j: nat, capture: Location) returns (next: nat)
    requires game.Valid() && at < |game.checkers| && j < |game.checkers| && at != j
    requires capture in Destinations(game.checkers, game.boardSize, game.checkers[at], true)
    requires !game.isComplete
    modifies game
    ensures game.Valid() && game.boardSize == old(game.boardSize)
    ensures next == CapturerIndexAfter(at, j)
    ensures game.checkers == JumpResult(old(game.checkers), game.boardSize, at, j, capture)
    ensures game.isComplete == !HasOtherTeam(game.checkers, old(game.checkers)[at].team)
  {
    JumpKeepsValid(game.checkers, game.boardSize, at, j, capture);
    var capturer := game.checkers[at];
    game.checkers := game.checkers[..j] + game.checkers[j + 1..];
    next := at;
    if j < at {
      next := at - 1;
    }
    capturer := capturer.(location := capture);
    if !capturer.isKing {
      capturer := capturer.(isKing := ShouldBeKing(capturer, game.boardSize));
    }
    game.checkers := game.checkers[next := capturer];
    if !HasOtherTeam(game.checkers, capturer.team) {
      game.isComplete := true;
    }
  }

  /**
   * One request of a capture sequence, in place, for a game still running:
   * when `capture` is a legal capture for checker `at` (recomputed from the
   * current position) the jump is taken, removing the opposing checker on
   * the jumped square; otherwise nothing changes.
   */
  method TryCapture(game: Game, at: nat, capture: Location)
    returns (legal: bool, jumped: bool, next: nat)
    requires game.Valid() && at < |game.checkers| && !game.isComplete
    modifies game
    ensures game.Valid() && game.boardSize == old(game.boardSize) && next < |game.checkers|
    ensures legal <==> capture in Destinations(old(game.checkers), game.boardSize, old(game.checkers)[at], true)
    ensures jumped <==> legal
    ensures !legal ==> game.checkers == old(game.checkers) && !game.isComplete && next == at
    ensures legal ==>
              var cs := old(game.checkers);
              var toCapture := IndexAt(cs, CapturedSquare(cs[at].location, capture));
              toCapture.Some? && toCapture.value != at
              && next == CapturerIndexAfter(at, toCapture.value)
              && game.checkers == JumpResult(cs, game.boardSize, at, toCapture.value, capture)
              && game.isComplete == !HasOtherTeam(game.checkers, cs[at].team)
  {
    jumped, next := false, at;
    var capturer := game.checkers[at];
    var validCaptures := ValidMovesForTeam(game, true, capturer.team);
    assert capturer in game.checkers;
    legal := capture in validCaptures[capturer.Key()];
    if legal {
      var checkerToCapture := CapturedSquare(capturer.location, capture);
      var toRemove := game.CheckerByLocation(checkerToCapture);
      JumpedCheckerIsOpponent(game.checkers, game.boardSize, at, capture);
      if toRemove.Some? {
        next := Jump(game, at, toRemove.value, capture);
        jumped := true;
      }
    }
  }

  /**
   * Runs a capture sequence for checker `i` in place, re-validating each
   * landing square against freshly computed captures; returns true when at
   * least one jump was executed.
   */
  method Capture(game: Game, i: nat, captures: seq<Location>) returns (success: bool)
    requires game.Valid() && i < |game.checkers|
    modifies game
    ensures game.Valid()
    ensures var r := CaptureRun(old(game.checkers), old(game.boardSize), i, old(game.isComplete), captures);
            game.checkers == r.checkers && game.isComplete == r.isComplete && (success <==> r.jumps > 0)
    ensures game.boardSize == old(game.boardSize)
  {
    ghost var whole := CaptureRun(game.checkers, game.boardSize, i, game.isComplete, captures);
    ghost var jumps := 0;
    success := false;
    var at: nat := i;
    var n := 0;
    while n < |captures|
      invariant 0 <= n <= |captures| && at < |game.checkers|
      invariant game.boardSize == old(game.boardSize)
      invariant game.Valid()
      invariant success <==> jumps > 0
      invariant var r := CaptureRun(game.checkers, game.boardSize, at, game.isComplete, captures[n..]);
                whole == r.(jumps := r.jumps + jumps)
    {
      if game.isComplete {
        CaptureRunStops(game.checkers, game.boardSize, at, game.isComplete, captures[n..]);
        break;
      }
      assert captures[n..][0] == captures[n] && captures[n..][1..] == captures[n + 1..];
      ghost var before, from := game.checkers, at;
      var legal, jumped;
      legal, jumped, at := TryCapture(game, at, captures[n]);
      if !legal {
        CaptureRunStops(game.checkers, game.boardSize, at, game.isComplete, captures[n..]);
        break;
      }
      CaptureRunJumps(before, game.boardSize, from, captures[n..],
                      IndexAt(before, CapturedSquare(before[from].location, captures[n])).value);
      if jumped {
        success := true;
        jumps := jumps + 1;
      }
      n := n + 1;
    }
    if n == |captures| {
      CaptureRunStops(game.checkers, game.boardSize, at, game.isComplete, captures[n..]);
    }
  }

  /**
   * A worked capture on a 4x4 board: the only Red checker, at (2, 2), jumps
   * the only Black checker, at (1, 1), lands on (0, 0), is crowned there, and
   * the game is over. A second requested landing square is never tried.
   */
  lemma SingleJumpEndsGame()
    ensures var black, red := NewChecker(Location(1, 1), Black), NewChecker(Location(2, 2), Red);
            CaptureRun([black, red], 4, 1, false, [Location(0, 0), Location(2, 2)])
              == CaptureOutcome([Checker(Location(0, 0), Red, true)], 0, true, 1)
  {
    var black, red := NewChecker(Location(1, 1), Black), NewChecker(Location(2, 2), Red);
    var cs := [black, red];
    DestinationsExact(cs, 4, red, true, Location(0, 0));
    assert cs[0].location == Location(1, 1) && cs[0].team != red.team;
    assert IsCandidate(red, Location(0, 0), 2);
    assert IndexAt(cs, Location(1, 1)) == Some(0);
    var next := JumpResult(cs, 4, 1, 0, Location(0, 0));
    assert next == [Checker(Location(0, 0), Red, true)];
    assert !HasOtherTeam(next, Red);
  }

  /** A turn request, already parsed: skip the turn, move a checker, or capture along a list of squares. */
  datatype Request =
    | Skip
    | MoveRequest(start: Location, end: Location)
    | CaptureRequest(start: Location, landings: seq<Location>)

  /**
   * Executes a turn request. Skipping always succeeds and changes nothing; a
   * start square with no checker fails and changes nothing; otherwise the
   * first checker on the start square moves or captures, whichever its team.
   */
  method ExecuteTurn(game: Game, request: Request) returns (success: bool)
    requires game.Valid()
    modifies game
    ensures game.Valid() && game.boardSize == old(game.boardSize)
    ensures request.Skip? ==> success && unchanged(game)
    ensures !request.Skip? && IndexAt(old(game.checkers), request.start).None? ==> !success && unchanged(game)
    ensures request.MoveRequest? && IndexAt(old(game.checkers), request.start).Some? ==>
              var cs := old(game.checkers);
              var i := IndexAt(cs, request.start).value;
              (success <==> request.end in Destinations(cs, game.boardSize, cs[i], false))
              && game.checkers == (if success then cs[i := Relocate(cs[i], request.end, game.boardSize)] else cs)
              && game.isComplete == old(game.isComplete)
    ensures request.CaptureRequest? && IndexAt(old(game.checkers), request.start).Some? ==>
              var cs := old(game.checkers);
              var r := CaptureRun(cs, game.boardSize, IndexAt(cs, request.start).value, old(game.isComplete), request.landings);
              game.checkers == r.checkers && game.isComplete == r.isComplete && (success <==> r.jumps > 0)
  {
    if request.Skip? {
      return true;
    }
    var toMove := game.CheckerByLocation(request.start);
    if toMove.None? {
      return false;
    }
    if request.CaptureRequest? {
      success := Capture(game, toMove.value, request.landings);
    } else {
      success := Move(game, toMove.value, request.end);
    }
  }
}

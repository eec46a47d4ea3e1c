/**
 * The position model of the checkers engine: squares, teams, pieces and the
 * game object that owns the list of pieces, the board size and the
 * completion flag.
 */
module Position {

  datatype Option<T> = None | Some(value: T)

  /** A square of the board; two locations are equal when their x and y agree. */
  datatype Location = Location(x: int, y: int)

  /** Red moves towards y = 0, Black towards y = boardSize - 1. */
  datatype Team = Red | Black

  /** The part of a checker that checker equality compares: its square and its team. */
  datatype CheckerKey = CheckerKey(location: Location, team: Team)

  /** A single piece. Its equality, and so its identity as a map key, ignores isKing. */
  datatype Checker = Checker(location: Location, team: Team, isKing: bool)
  {
    function Key(): CheckerKey { CheckerKey(location, team) }
  }

  /** A newly placed checker is never a king. */
  function NewChecker(location: Location, team: Team): (c: Checker)
    ensures c.location == location && c.team == team && !c.isKing
  {
    Checker(location, team, false)
  }

  /** True when `loc` lies on an n-by-n board (0 <= x, y < n). */
  predicate OnBoard(boardSize: int, loc: Location)
  {
    0 <= loc.x < boardSize && 0 <= loc.y < boardSize
  }

  /** Some checker of `cs` stands on `loc`. */
  ghost predicate Occupied(cs: seq<Checker>, loc: Location)
  {
    exists k :: 0 <= k < |cs| && cs[k].location == loc
  }

  /** Some checker of a team other than `team` stands on `loc`. */
  ghost predicate OpponentAt(cs: seq<Checker>, loc: Location, team: Team)
  {
    exists k :: 0 <= k < |cs| && cs[k].location == loc && cs[k].team != team
  }

  /** No two checkers share a square, whatever their teams. */
  ghost predicate NoSharedSquares(cs: seq<Checker>)
  {
    forall a, b :: 0 <= a < b < |cs| ==> cs[a].location != cs[b].location
  }

  /** The position invariant the engine maintains: every checker on the board, none sharing a square. */
  ghost predicate ValidPosition(cs: seq<Checker>, boardSize: int)
  {
    NoSharedSquares(cs) && forall k :: 0 <= k < |cs| ==> OnBoard(boardSize, cs[k].location)
  }

  /** No later checker of `cs` stands on the square of checker `k`. */
  ghost predicate LastOnSquare(cs: seq<Checker>, k: int)
    requires 0 <= k < |cs|
  {
    forall m :: k < m < |cs| ==> cs[m].location != cs[k].location
  }

  /** Under the position invariant, Java checker equality (square and team) singles out one piece. */
  lemma KeyIdentifiesChecker(cs: seq<Checker>, a: int, b: int)
    requires NoSharedSquares(cs)
    requires 0 <= a < |cs| && 0 <= b < |cs|
    requires cs[a].Key() == cs[b].Key()
    ensures a == b
  {
  }

  /** The index of the first checker on `loc`, the piece a linear search from the front finds. */
  function IndexAt(cs: seq<Checker>, loc: Location): (r: Option<nat>)
    ensures r.Some? ==> r.value < |cs| && cs[r.value].location == loc
    ensures r.Some? ==> forall k :: 0 <= k < r.value ==> cs[k].location != loc
    ensures r.None? <==> !Occupied(cs, loc)
  {
    if cs == [] then None
    else if cs[0].location == loc then Some(0)
    else
      match IndexAt(cs[1..], loc)
      case None =>
        assert forall k :: 1 <= k < |cs| ==> cs[k] == cs[1..][k - 1];
        None
      case Some(k) => Some(k + 1)
  }

  /**
   * The square-to-checker map built by inserting the checkers in list order;
   * a later checker on the same square replaces an earlier one.
   */
  function PieceMap(cs: seq<Checker>): map<Location, Checker>
  {
    if cs == [] then map[]
    else PieceMap(cs[..|cs| - 1])[cs[|cs| - 1].location := cs[|cs| - 1]]
  }

  /** The map's squares are exactly the occupied squares. */
  lemma {:induction false} PieceMapKeys(cs: seq<Checker>)
    ensures forall loc :: loc in PieceMap(cs) <==> Occupied(cs, loc)
  {
    if cs != [] {
      var init := cs[..|cs| - 1];
      PieceMapKeys(init);
      assert forall k :: 0 <= k < |init| ==> init[k] == cs[k];
      forall loc | Occupied(cs, loc) && loc != cs[|cs| - 1].location
        ensures Occupied(init, loc)
      {
        var k :| 0 <= k < |cs| && cs[k].location == loc;
        assert init[k].location == loc;
      }
    }
  }

  /** A checker that no later checker shares a square with is the one the map holds for that square. */
  lemma {:induction false} PieceMapAt(cs: seq<Checker>, k: int)
    requires 0 <= k < |cs| && LastOnSquare(cs, k)
    ensures cs[k].location in PieceMap(cs) && PieceMap(cs)[cs[k].location] == cs[k]
  {
    if k < |cs| - 1 {
      var init := cs[..|cs| - 1];
      assert init[k] == cs[k];
      assert LastOnSquare(init, k) by {
        forall m | k < m < |init| ensures init[m].location != init[k].location {
          assert init[m] == cs[m];
        }
      }
      PieceMapAt(init, k);
    }
  }

  /** Under the position invariant, the map holds every checker at its own square. */
  lemma PieceMapOfValid(cs: seq<Checker>)
    requires NoSharedSquares(cs)
    ensures forall loc :: loc in PieceMap(cs) <==> Occupied(cs, loc)
    ensures forall k :: 0 <= k < |cs| ==> cs[k].location in PieceMap(cs) && PieceMap(cs)[cs[k].location] == cs[k]
  {
    PieceMapKeys(cs);
    forall k | 0 <= k < |cs|
      ensures cs[k].location in PieceMap(cs) && PieceMap(cs)[cs[k].location] == cs[k]
    {
      PieceMapAt(cs, k);
    }
  }

  /** The rows of the standard setup that hold pieces: three for Black, three for Red. */
  const STANDARD_ROWS: seq<int> := [0, 1, 2, 5, 6, 7]

  /** The standard 8x8 setup, in the order the setup loops place the pieces: row by row, left to right. */
  function StandardSetup(): seq<Checker>
  {
    seq(24, k requires 0 <= k < 24 =>
      var y := STANDARD_ROWS[k / 4];
      NewChecker(Location(y % 2 + 2 * (k % 4), y), if y <= 2 then Black else Red))
  }

  /** How many pieces the setup places in the rows above row `i`. */
  function PlacedBefore(i: int): int
  {
    if i <= 3 then 4 * i else if i <= 5 then 12 else 4 * (i - 2)
  }

  /** The row, column and team of the k-th piece of the standard setup. */
  lemma StandardPiece(k: int)
    requires 0 <= k < 24
    ensures var c := StandardSetup()[k];
            var r, m := k / 4, k % 4;
            0 <= r < 6 && 0 <= m < 4 && k == 4 * r + m
            && c.location == Location(STANDARD_ROWS[r] % 2 + 2 * m, STANDARD_ROWS[r])
            && c.team == (if r < 3 then Black else Red) && !c.isKing
  {
  }

  /** The piece the setup places at the m-th playable square of a populated row. */
  lemma StandardSetupAt(i: int, m: int)
    requires i in STANDARD_ROWS && 0 <= m < 4
    ensures 0 <= PlacedBefore(i) + m < 24
    ensures StandardSetup()[PlacedBefore(i) + m]
         == NewChecker(Location(i % 2 + 2 * m, i), if i <= 2 then Black else Red)
  {
    var k := PlacedBefore(i) + m;
    var r := if i <= 2 then i else i - 2;
    assert k == 4 * r + m;
    StandardPiece(k);
  }

  /** Placing that piece extends the prefix of the setup placed so far by one. */
  lemma StandardSetupExtend(i: int, m: int)
    requires i in STANDARD_ROWS && 0 <= m < 4
    ensures 0 <= PlacedBefore(i) + m < 24
    ensures StandardSetup()[..PlacedBefore(i) + m] + [NewChecker(Location(i % 2 + 2 * m, i), if i <= 2 then Black else Red)]
         == StandardSetup()[..PlacedBefore(i) + m + 1]
  {
    StandardSetupAt(i, m);
    var k := PlacedBefore(i) + m;
    assert StandardSetup()[..k + 1] == StandardSetup()[..k] + [StandardSetup()[k]];
  }

  /**
   * Every piece of the standard setup is uncrowned and stands on a square whose
   * x and y have equal parity; the first 12 are Black on rows 0-2, the other 12
   * Red on rows 5-7.
   */
  lemma StandardSetupPieces()
    ensures |StandardSetup()| == 24
    ensures forall k :: 0 <= k < 24 ==>
              var c := StandardSetup()[k];
              !c.isKing && c.location.x % 2 == c.location.y % 2 && OnBoard(8, c.location)
              && (c.team == Black <==> k < 12)
              && (c.team == Black <==> c.location.y <= 2)
  {
    forall k | 0 <= k < 24
      ensures var c := StandardSetup()[k];
              !c.isKing && c.location.x % 2 == c.location.y % 2 && OnBoard(8, c.location)
              && (c.team == Black <==> k < 12)
              && (c.team == Black <==> c.location.y <= 2)
    {
      StandardPiece(k);
    }
  }

  /** No two pieces of the standard setup share a square, and all are on the 8x8 board. */
  lemma StandardSetupValid()
    ensures ValidPosition(StandardSetup(), 8)
  {
    var s := StandardSetup();
    StandardSetupPieces();
    forall a, b | 0 <= a < b < |s| ensures s[a].location != s[b].location {
      StandardPiece(a);
      StandardPiece(b);
    }
  }

  /** The standard setup fills exactly the dark squares (x and y of equal parity) of rows 0-2 and 5-7. */
  lemma StandardSetupSquares()
    ensures forall loc :: Occupied(StandardSetup(), loc) <==>
              OnBoard(8, loc) && loc.x % 2 == loc.y % 2 && (loc.y <= 2 || 5 <= loc.y)
  {
    var s := StandardSetup();
    StandardSetupPieces();
    forall loc | OnBoard(8, loc) && loc.x % 2 == loc.y % 2 && (loc.y <= 2 || 5 <= loc.y)
      ensures Occupied(s, loc)
    {
      var m := loc.x / 2;
      assert loc.x == loc.y % 2 + 2 * m;
      StandardSetupAt(loc.y, m);
      assert s[PlacedBefore(loc.y) + m].location == loc;
    }
  }

  /**
   * A game: the list of checkers in play, the board size and whether the game
   * is over. The engine updates these fields in place.
   */
  class Game {
    var checkers: seq<Checker>
    var boardSize: int
    var isComplete: bool

    ghost predicate Valid()
      reads this
    {
      ValidPosition(checkers, boardSize)
    }

    /** An empty board of the given size. */
    constructor (boardSize: int)
      ensures this.boardSize == boardSize && checkers == [] && !isComplete
      ensures Valid()
    {
      this.boardSize := boardSize;
      this.checkers := [];
      this.isComplete := false;
    }

    /** A game of standard size (8) and setup. */
    constructor Standard()
      ensures boardSize == 8 && checkers == StandardSetup() && !isComplete
      ensures Valid()
    {
      var size := 8;
      var pieces: seq<Checker> := [];
      var i := 0;
      while i < size
        invariant 0 <= i <= size
        invariant pieces == StandardSetup()[..PlacedBefore(i)]
      {
        if i > 2 && i < 5 {
          i := i + 1;
          continue;
        }
        var j := i % 2;
        while j < size
          invariant i % 2 <= j <= size + 1 && j % 2 == i % 2
          invariant pieces == StandardSetup()[..PlacedBefore(i) + (j - i % 2) / 2]
        {
          var location := Location(j, i);
          StandardSetupExtend(i, (j - i % 2) / 2);
          if i <= 2 {
            pieces := pieces + [NewChecker(location, Black)];
          } else {
            pieces := pieces + [NewChecker(location, Red)];
          }
          j := j + 2;
        }
        i := i + 1;
      }
      boardSize := size;
      checkers := pieces;
      isComplete := false;
      StandardSetupValid();
    }

    /** Linear search for the first checker on a square; the result is its index in `checkers`. */
    method CheckerByLocation(checkerLocation: Location) returns (r: Option<nat>)
      ensures r == IndexAt(checkers, checkerLocation)
    {
      var k := 0;
      while k < |checkers|
        invariant 0 <= k <= |checkers|
        invariant forall m :: 0 <= m < k ==> checkers[m].location != checkerLocation
      {
        if checkers[k].location == checkerLocation {
          return Some(k);
        }
        k := k + 1;
      }
      return None;
    }

    /** The square-to-checker map, rebuilt from the list on every call. */
    method LocationToCheckerMapping() returns (m: map<Location, Checker>)
      ensures m == PieceMap(checkers)
    {
      m := map[];
      for k := 0 to |checkers|
        invariant m == PieceMap(checkers[..k])
      {
        assert checkers[..k + 1][..k] == checkers[..k];
        m := m[checkers[k].location := checkers[k]];
      }
      assert checkers[..|checkers|] == checkers;
    }
  }
}

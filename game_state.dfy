/**
 * The server's rule engine (`model.GameState`): the board, the side to move,
 * move validation with mandatory capture, promotion, the turn kept after a
 * capture with a follow-up, and the game-over test.
 */
module GameStateModel {
  import opened Board
  import opened JavaInt

  /**
   * What `executeMove` does: returns true, returns false, or throws
   * `ArrayIndexOutOfBoundsException` on a coordinate outside the board.
   */
  datatype MoveStatus = Accepted | Rejected | IndexOutOfBounds

  datatype Outcome = Outcome(status: MoveStatus, board: Grid, whiteTurn: bool)

  /**
   * The reference definition of `executeMove`, in the order the checks are
   * made.  Differences are Java `int` differences and `Math.abs`.
   */
  ghost function ExecuteMoveSpec(g: Grid, whiteTurn: bool, r1: Int32, c1: Int32, r2: Int32, c2: Int32): Outcome {
    if !InBounds(r1, c1) then Outcome(IndexOutOfBounds, g, whiteTurn)
    else
      var s := Square(r1, c1);
      var dr, dc := Sub32(r2, r1), Sub32(c2, c1);
      if At(g, s).None? || (At(g, s).value.color == White) != whiteTurn || Abs32(dr) != Abs32(dc) then
        Outcome(Rejected, g, whiteTurn)
      else if Abs32(dr) >= 2 then CaptureMoveSpec(g, whiteTurn, s, Square(r2, c2))
      else SimpleMoveSpec(g, whiteTurn, s, r2, c2, dr)
  }

  /**
   * A move of length two or more is a capture: accepted only when the
   * destination is one of the piece's capture landings.  The turn passes
   * unless the capturer can capture again from where it landed.
   */
  ghost function CaptureMoveSpec(g: Grid, whiteTurn: bool, s: Square, t: Square): Outcome
    requires OnBoard(s) && At(g, s).Some?
  {
    if IsCaptureTarget(OwnersOf(g), At(g, s).value, s, t) then
      var h := JumpResult(g, s, t);
      Outcome(Accepted, h, if CanCapture(OwnersOf(h), At(h, t).value, t) then whiteTurn else !whiteTurn)
    else Outcome(Rejected, g, whiteTurn)
  }

  /**
   * A move of length at most one: refused while the side to move has a
   * capture; otherwise a Man steps forward, a King along a clear path, into
   * an empty square, and the turn passes.
   */
  ghost function SimpleMoveSpec(g: Grid, whiteTurn: bool, s: Square, r2: Int32, c2: Int32, dr: Int32): Outcome
    requires OnBoard(s) && At(g, s).Some?
  {
    var p := At(g, s).value;
    var t := Square(r2, c2);
    if SideCanCapture(g, SideToMove(whiteTurn)) then Outcome(Rejected, g, whiteTurn)
    else if !OnBoard(t) then Outcome(IndexOutOfBounds, g, whiteTurn)
    else if At(g, t).Some? then Outcome(Rejected, g, whiteTurn)
    else if (p.rank == Man && Abs32(dr) == 1 && dr == Forward(p.color)) ||
            (p.rank == King && PathClear(OwnersOf(g), s, t))
    then Outcome(Accepted, MoveAndPromote(g, s, t), !whiteTurn)
    else Outcome(Rejected, g, whiteTurn)
  }

  /** The reference definition of `checkGameOver`: piece loss first, then blockade of the side to move. */
  ghost function GameOverSpec(g: Grid, whiteTurn: bool): Option<string> {
    if !HasPiece(g, White) then Some("Pretas venceram!")
    else if !HasPiece(g, Black) then Some("Brancas venceram!")
    else if whiteTurn && !HasMoveFor(g, White) then Some("Pretas venceram! (Brancas sem movimentos)")
    else if !whiteTurn && !HasMoveFor(g, Black) then Some("Brancas venceram! (Pretas sem movimentos)")
    else None
  }

  class GameState {
    var board: array2<Option<Piece>>
    var whiteTurn: bool
    ghost var cells: Grid

    ghost predicate Valid()
      reads this, board
    {
      Mirrors(board, cells)
    }

    /** A new game: the standard layout, White to move. */
    constructor()
      ensures Valid() && fresh(board)
      ensures cells == InitialGrid() && whiteTurn
    {
      board := new Option<Piece>[8, 8];
      whiteTurn := true;
      cells := InitialGrid();
      new;
      InitializeBoard(board);
    }

    /** `executeMove(r1, c1, r2, c2)`. */
    method ExecuteMove(r1: Int32, c1: Int32, r2: Int32, c2: Int32) returns (status: MoveStatus)
      requires Valid()
      modifies board, this`whiteTurn, this`cells
      ensures Valid()
      ensures Outcome(status, cells, whiteTurn) == ExecuteMoveSpec(old(cells), old(whiteTurn), r1, c1, r2, c2)
    {
      if !InBounds(r1, c1) {
        return IndexOutOfBounds;
      }
      var s := Square(r1, c1);
      var piece := board[r1, c1];
      if piece.None? {
        return Rejected;
      }
      var isWhite := piece.value.color == White;
      if isWhite != whiteTurn {
        return Rejected;
      }
      var dr, dc := Sub32(r2, r1), Sub32(c2, c1);
      if Abs32(dr) != Abs32(dc) {
        return Rejected;
      }
      if Abs32(dr) >= 2 {
        status := CaptureMove(s, Square(r2, c2));
      } else {
        status := SimpleMove(s, r2, c2, dr, dc);
      }
    }

    /** The `Math.abs(dr) >= 2` branch of `executeMove`. */
    method CaptureMove(s: Square, t: Square) returns (status: MoveStatus)
      requires Valid() && OnBoard(s) && At(cells, s).Some?
      modifies board, this`whiteTurn, this`cells
      ensures Valid()
      ensures Outcome(status, cells, whiteTurn) == CaptureMoveSpec(old(cells), old(whiteTurn), s, t)
    {
      var piece := board[s.row, s.col];
      var capturesFromPiece := GetCaptureMovements(piece, s);
      var validCapture := ListContains(capturesFromPiece, t);
      if validCapture {
        var captured := PerformCapture(s, t);
        if captured {
          JumpLands(old(cells), s, t);
          PassTurnUnlessCapture(t);
          return Accepted;
        }
        assert false;
      }
      return Rejected;
    }

    /** After a capture: the turn passes unless the piece on `t` can capture again. */
    method PassTurnUnlessCapture(t: Square)
      requires Valid() && OnBoard(t) && At(cells, t).Some?
      modifies this`whiteTurn
      ensures whiteTurn == if CanCapture(OwnersOf(cells), At(cells, t).value, t) then old(whiteTurn) else !old(whiteTurn)
    {
      var sequentialCaptures := GetCaptureMovements(board[t.row, t.col], t);
      if |sequentialCaptures| == 0 {
        whiteTurn := !whiteTurn;
      } else {
        assert IsCaptureTarget(OwnersOf(cells), At(cells, t).value, t, sequentialCaptures[0]);
      }
    }

    /** The rest of `executeMove`: mandatory capture, then a Man's or a King's simple move. */
    method SimpleMove(s: Square, r2: Int32, c2: Int32, dr: Int32, dc: Int32) returns (status: MoveStatus)
      requires Valid() && OnBoard(s) && At(cells, s).Some? && (At(cells, s).value.color == White) == whiteTurn
      requires Abs32(dr) == Abs32(dc) && Abs32(dr) < 2 && dr == Sub32(r2, s.row) && dc == Sub32(c2, s.col)
      modifies board, this`whiteTurn, this`cells
      ensures Valid()
      ensures Outcome(status, cells, whiteTurn) == SimpleMoveSpec(old(cells), old(whiteTurn), s, r2, c2, dr)
    {
      var piece := board[s.row, s.col].value;
      var isWhite := piece.color == White;
      var isKing := piece.rank == King;
      var allCaptures := FindAllCaptures(whiteTurn);
      var mustCapture := |allCaptures| > 0;
      if mustCapture {
        return Rejected;
      }
      if !InBounds(r2, c2) {
        return IndexOutOfBounds;
      }
      var t := Square(r2, c2);
      if board[r2, c2].Some? {
        return Rejected;
      }
      if !isKing {
        if Abs32(dr) == 1 && Abs32(dc) == 1 && ((isWhite && dr < 0) || (!isWhite && dr > 0)) {
          PerformSimpleMove(s, t);
          whiteTurn := !whiteTurn;
          return Accepted;
        }
      } else {
        var clear := PathIsClear(board, cells, s, t);
        if clear {
          PerformSimpleMove(s, t);
          whiteTurn := !whiteTurn;
          return Accepted;
        }
      }
      return Rejected;
    }

    /**
     * `performCapture`: a King captures when exactly one piece stands
     * strictly between origin and destination and it is an enemy; a Man when
     * the move has length two and the midpoint holds an enemy.  The enemy is
     * removed and the piece moved and promoted; otherwise nothing changes.
     */
    method PerformCapture(s: Square, t: Square) returns (captured: bool)
      requires Valid() && OnBoard(s) && OnBoard(t) && Diagonal(s, t) && At(cells, s).Some?
      modifies board, this`cells
      ensures Valid()
      ensures captured <==> exists k :: CaptureStep(OwnersOf(old(cells)), At(old(cells), s).value, s, t, k)
      ensures cells == if captured then JumpResult(old(cells), s, t) else old(cells)
    {
      var enemy;
      ghost var k;
      captured, enemy, k := LocateCapture(board, cells, s, t);
      if captured {
        JumpResultAt(cells, s, t, k);
        board[enemy.row, enemy.col] := None;
        cells := SetCell(cells, enemy, None);
        PerformSimpleMove(s, t);
      }
    }

    /** `performSimpleMove`: copy the origin to the destination, clear the origin, promote. */
    method PerformSimpleMove(s: Square, t: Square)
      requires Valid() && OnBoard(s) && OnBoard(t)
      modifies board, this`cells
      ensures Valid()
      ensures cells == MoveAndPromote(old(cells), s, t)
    {
      MovePiece(board, cells, s, t);
      cells := MoveAndPromote(cells, s, t);
    }

    /** `findAllCaptures(isWhite)`. */
    method FindAllCaptures(isWhite: bool) returns (moves: seq<Square>)
      requires Valid()
      ensures forall t :: t in moves <==> SideCaptureTarget(cells, SideToMove(isWhite), t)
      ensures |moves| > 0 <==> SideCanCapture(cells, SideToMove(isWhite))
    {
      moves := AllCaptures(board, cells, SideToMove(isWhite));
    }

    /** `getCaptureMovements(piece, r, c)`; an empty square has none. */
    method GetCaptureMovements(piece: Option<Piece>, s: Square) returns (moves: seq<Square>)
      requires Valid() && OnBoard(s)
      ensures piece.None? ==> moves == []
      ensures piece.Some? ==> forall t :: t in moves <==> IsCaptureTarget(OwnersOf(cells), piece.value, s, t)
    {
      if piece.None? {
        return [];
      }
      moves := CaptureMovements(board, cells, piece.value, s);
    }

    /** `hasSimpleMove(piece, r, c)`. */
    method HasSimpleMove(p: Piece, s: Square) returns (b: bool)
      requires Valid() && OnBoard(s)
      ensures b <==> HasSimpleStep(OwnersOf(cells), p, s)
    {
      b := Board.HasSimpleMove(board, cells, p, s);
    }

    /** `checkGameOver`: the winner's message, or none while the game goes on. */
    method CheckGameOver() returns (msg: Option<string>)
      requires Valid()
      ensures msg == GameOverSpec(cells, whiteTurn)
    {
      var hasWhite, hasBlack, hasWhiteMove, hasBlackMove := SurveySides(board, cells);
      if !hasWhite {
        return Some("Pretas venceram!");
      }
      if !hasBlack {
        return Some("Brancas venceram!");
      }
      if whiteTurn && !hasWhiteMove {
        return Some("Pretas venceram! (Brancas sem movimentos)");
      }
      if !whiteTurn && !hasBlackMove {
        return Some("Brancas venceram! (Pretas sem movimentos)");
      }
      return None;
    }
  }

  // ---------------------------------------------------------------------
  // Properties of the rules
  // ---------------------------------------------------------------------

  /** Only an accepted move changes the board or the side to move. */
  lemma RefusedMoveChangesNothing(g: Grid, wt: bool, r1: Int32, c1: Int32, r2: Int32, c2: Int32)
    ensures var res := ExecuteMoveSpec(g, wt, r1, c1, r2, c2);
      res.status != Accepted ==> res.board == g && res.whiteTurn == wt
  {
  }

  /**
   * An empty origin, a piece of the side not to move, or a move that is not
   * diagonal (compared with Java's wrapping `Math.abs(r2 - r1)`) is refused.
   */
  lemma EarlyRejections(g: Grid, wt: bool, r1: Int32, c1: Int32, r2: Int32, c2: Int32)
    requires InBounds(r1, c1)
    requires At(g, Square(r1, c1)).None? || (At(g, Square(r1, c1)).value.color == White) != wt ||
      Abs32(Sub32(r2, r1)) != Abs32(Sub32(c2, c1))
    ensures ExecuteMoveSpec(g, wt, r1, c1, r2, c2) == Outcome(Rejected, g, wt)
  {
  }

  /**
   * What an accepted move is: an on-board diagonal move by a piece of the
   * side to move; a move of length two or more is a capture landing and
   * leaves the jump result; a move of length one is possible only when the
   * side has no capture, goes to an empty square, moves a Man forward, and
   * passes the turn.  So Kings never make long non-capturing moves here.
   */
  lemma AcceptedMove(g: Grid, wt: bool, r1: Int32, c1: Int32, r2: Int32, c2: Int32)
    requires ExecuteMoveSpec(g, wt, r1, c1, r2, c2).status == Accepted
    ensures var s, t := Square(r1, c1), Square(r2, c2);
      var res := ExecuteMoveSpec(g, wt, r1, c1, r2, c2);
      OnBoard(s) && OnBoard(t) && Diagonal(s, t) && OwnPieceAt(g, SideToMove(wt), s) &&
      (Dist(s, t) >= 2 ==> IsCaptureTarget(OwnersOf(g), At(g, s).value, s, t) && res.board == JumpResult(g, s, t)) &&
      (Dist(s, t) == 1 ==>
        !SideCanCapture(g, SideToMove(wt)) && At(g, t).None? &&
        (At(g, s).value.rank == Man ==> t.row - s.row == Forward(At(g, s).value.color)) &&
        res.board == MoveAndPromote(g, s, t) && res.whiteTurn == !wt)
  {
    var s, t := Square(r1, c1), Square(r2, c2);
    var dr, dc := Sub32(r2, r1), Sub32(c2, c1);
    if Abs32(dr) >= 2 {
      assert IsCaptureTarget(OwnersOf(g), At(g, s).value, s, t);
      var k :| CaptureStep(OwnersOf(g), At(g, s).value, s, t, k);
    } else {
      assert OnBoard(t);
      if Dist(s, t) >= 2 {
        assert false;
      }
    }
  }

  /**
   * Mandatory capture: while the side to move has a capture anywhere on
   * the board, every accepted move is a capture, which removes exactly one
   * enemy piece (JumpEffect).
   */
  lemma MandatoryCapture(g: Grid, wt: bool, r1: Int32, c1: Int32, r2: Int32, c2: Int32)
    requires SideCanCapture(g, SideToMove(wt))
    requires ExecuteMoveSpec(g, wt, r1, c1, r2, c2).status == Accepted
    ensures IsCaptureTarget(OwnersOf(g), At(g, Square(r1, c1)).value, Square(r1, c1), Square(r2, c2))
    ensures ExecuteMoveSpec(g, wt, r1, c1, r2, c2).board == JumpResult(g, Square(r1, c1), Square(r2, c2))
  {
    AcceptedMove(g, wt, r1, c1, r2, c2);
  }

  /**
   * After an accepted capture the same side moves again exactly when the
   * capturer, on its landing square and possibly promoted, can capture again.
   * No lock on that piece is stored.
   */
  lemma TurnAfterCapture(g: Grid, wt: bool, r1: Int32, c1: Int32, r2: Int32, c2: Int32)
    requires InBounds(r1, c1) && InBounds(r2, c2) && Abs(r2 - r1) >= 2
    requires ExecuteMoveSpec(g, wt, r1, c1, r2, c2).status == Accepted
    ensures var res := ExecuteMoveSpec(g, wt, r1, c1, r2, c2); var t := Square(r2, c2);
      At(res.board, t).Some? &&
      (res.whiteTurn == wt <==> CanCapture(OwnersOf(res.board), At(res.board, t).value, t))
  {
    AcceptedMove(g, wt, r1, c1, r2, c2);
    var k :| CaptureStep(OwnersOf(g), At(g, Square(r1, c1)).value, Square(r1, c1), Square(r2, c2), k);
    JumpEffect(g, Square(r1, c1), Square(r2, c2), k);
  }

  /** A King has a simple move exactly when one of its four diagonal neighbours is an empty square. */
  lemma KingSimpleMove(o: Owners, p: Piece, s: Square)
    requires p.rank == King && OnBoard(s)
    ensures HasSimpleStep(o, p, s) <==> exists j :: 0 <= j < 4 && EmptyAt(o, Ray(s, Directions[j], 1))
  {
    if HasSimpleStep(o, p, s) {
      var t :| SimpleStepTarget(o, p, s, t);
      SimpleStepOnRay(o, p, s, t);
      var j :| 0 <= j < 4 && Directions[j] == DirTo(s, t);
      assert EmptyAt(o, Ray(s, Directions[j], 1));
    }
    if exists j :: 0 <= j < 4 && EmptyAt(o, Ray(s, Directions[j], 1)) {
      var j :| 0 <= j < 4 && EmptyAt(o, Ray(s, Directions[j], 1));
      RayDirection(s, Directions[j], 1);
      assert SimpleStepTarget(o, p, s, Ray(s, Directions[j], 1));
    }
  }

  /** The game goes on exactly when both colours have pieces and the side to move can move. */
  lemma GameGoesOn(g: Grid, wt: bool)
    ensures GameOverSpec(g, wt).None? <==>
      HasPiece(g, White) && HasPiece(g, Black) && HasMoveFor(g, SideToMove(wt))
  {
  }
}

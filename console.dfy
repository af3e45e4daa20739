/**
 * The console engine (`CheckersConsoleBrazil`): a board of `Piece` objects,
 * the player to move, and `move`, which checks a move typed as four numbers
 * and applies it.  Captures are mandatory: before a move the engine searches
 * every capture chain of the player's pieces.
 */
module Console {
  import opened JavaInt
  import opened Board
  import opened CaptureChains

  /** The board before `initBoard`: every square empty. */
  function EmptyGrid(): (g: Grid)
    ensures forall r, c :: 0 <= r < 8 && 0 <= c < 8 ==> g[r][c].None?
  {
    seq(8, _ => seq(8, _ => None))
  }

  /** The board after a capture, before promotion: mover on `t`, origin and captured square empty. */
  ghost function CaptureApplied(g: Grid, s: Square, t: Square): Grid
    requires OnBoard(s) && OnBoard(t) && At(g, s).Some?
    requires exists k :: CaptureStep(OwnersOf(g), At(g, s).value, s, t, k)
  {
    var k :| CaptureStep(OwnersOf(g), At(g, s).value, s, t, k);
    SetCell(SetCell(SetCell(g, t, At(g, s)), s, None), Captured(s, t, k), None)
  }

  /** A King's non-capturing move: copy to the destination, clear the origin, no promotion. */
  function Slide(g: Grid, s: Square, t: Square): Grid
    requires OnBoard(s) && OnBoard(t)
  {
    SetCell(SetCell(g, t, At(g, s)), s, None)
  }

  /**
   * The reference definition of `move`: both squares on the board, an own
   * piece on the origin; a capture is played if the move is one; otherwise,
   * if any capture exists, the move is refused; otherwise a Man steps one
   * square forward onto an empty square and a King slides along a clear
   * diagonal (its destination is not examined).
   */
  ghost function MoveSpec(g: Grid, player: Color, r1: int, c1: int, r2: int, c2: int): (bool, Grid) {
    if !InBounds(r1, c1) || !InBounds(r2, c2) then (false, g)
    else
      var s, t := Square(r1, c1), Square(r2, c2);
      if At(g, s).None? || At(g, s).value.color != player then (false, g)
      else OwnMoveSpec(g, s, t)
  }

  /** `move` once the origin holds a piece of the player to move. */
  ghost function OwnMoveSpec(g: Grid, s: Square, t: Square): (bool, Grid)
    requires OnBoard(s) && OnBoard(t) && At(g, s).Some?
  {
    var p := At(g, s).value;
    if IsCaptureTarget(OwnersOf(g), p, s, t) then (true, JumpResult(g, s, t))
    else if SideCanCapture(g, p.color) then (false, g)
    else QuietMoveSpec(g, p, s, t)
  }

  /**
   * A move that captures nothing: a Man steps one square forward onto an
   * empty square and is promoted on the far row; a King slides along a
   * diagonal whose squares strictly between are empty.
   */
  ghost function QuietMoveSpec(g: Grid, p: Piece, s: Square, t: Square): (bool, Grid)
    requires OnBoard(s) && OnBoard(t)
  {
    if p.rank == Man then
      if t.row == s.row + Forward(p.color) && Abs(t.col - s.col) == 1 && At(g, t).None?
      then (true, MoveAndPromote(g, s, t))
      else (false, g)
    else if Abs(t.row - s.row) == Abs(t.col - s.col) && PathClear(OwnersOf(g), s, t) then (true, Slide(g, s, t))
    else (false, g)
  }

  /** The chains reported by `findCaptureSequencesFrom` for square `s`, if it holds a piece of `color`. */
  ghost function SquareChains(g: Grid, color: Color, s: Square): seq<seq<Square>>
    requires OnBoard(s)
  {
    if OwnPieceAt(g, color, s) then Chains(OwnersOf(g), At(g, s).value, s, [s]) else []
  }

  /** The chains of the squares (r, 0) .. (r, c-1). */
  ghost function RowChains(g: Grid, color: Color, r: int, c: int): seq<seq<Square>>
    requires 0 <= r < 8 && 0 <= c <= 8
  {
    if c == 0 then [] else RowChains(g, color, r, c - 1) + SquareChains(g, color, Square(r, c - 1))
  }

  /** The chains of rows 0 .. r-1, in row-major order. */
  ghost function ChainsBefore(g: Grid, color: Color, r: int): seq<seq<Square>>
    requires 0 <= r <= 8
  {
    if r == 0 then [] else ChainsBefore(g, color, r - 1) + RowChains(g, color, r - 1, 8)
  }

  /** The result of one round of the console loop. */
  datatype Round = Finished(winner: Color) | Played(accepted: bool)

  class ConsoleGame {
    var board: array2<Option<Piece>>
    var currentPlayer: Color
    ghost var cells: Grid

    ghost predicate Valid()
      reads this, board
    {
      Mirrors(board, cells)
    }

    /** The static initialisers and the `initBoard()` call at the start of `main`. */
    constructor()
      ensures Valid() && fresh(board)
      ensures cells == InitialGrid() && currentPlayer == White
    {
      board := new Option<Piece>[8, 8]((_, _) => None);
      currentPlayer := White;
      cells := EmptyGrid();
      new;
      InitBoard();
    }

    /** `initBoard`: men on the dark squares of the three outer rows of each side. */
    method InitBoard()
      requires Valid() && cells == EmptyGrid()
      modifies board, this`cells
      ensures Valid() && cells == InitialGrid()
    {
      for r := 0 to 8
        invariant forall i, j :: 0 <= i < r && 0 <= j < 8 ==> board[i, j] == InitialCell(i, j)
        invariant forall i, j :: r <= i < 8 && 0 <= j < 8 ==> board[i, j].None?
      {
        for c := 0 to 8
          invariant forall i, j :: 0 <= i < r && 0 <= j < 8 ==> board[i, j] == InitialCell(i, j)
          invariant forall j :: 0 <= j < c ==> board[r, j] == InitialCell(r, j)
          invariant forall i, j :: r <= i < 8 && 0 <= j < 8 && (i > r || j >= c) ==> board[i, j].None?
        {
          if (r + c) % 2 == 1 {
            if r < 3 {
              board[r, c] := Some(Piece(Black, Man));
            } else if r > 4 {
              board[r, c] := Some(Piece(White, Man));
            }
          }
        }
      }
      cells := InitialGrid();
    }

    /**
     * One round of `main`: if the game is over the winner is the player not
     * to move; otherwise the typed move is tried and the turn passes when it
     * is accepted.
     */
    method PlayRound(r1: int, c1: int, r2: int, c2: int) returns (result: Round)
      requires Valid()
      modifies board, this`cells, this`currentPlayer
      ensures Valid()
      ensures !(HasPiece(old(cells), White) && HasPiece(old(cells), Black)) ==>
        result == Finished(Opponent(old(currentPlayer))) && cells == old(cells) && currentPlayer == old(currentPlayer)
      ensures HasPiece(old(cells), White) && HasPiece(old(cells), Black) ==>
        result.Played? && (result.accepted, cells) == MoveSpec(old(cells), old(currentPlayer), r1, c1, r2, c2) &&
        currentPlayer == if result.accepted then Opponent(old(currentPlayer)) else old(currentPlayer)
    {
      var over := IsGameOver();
      if over {
        return Finished(if currentPlayer == White then Black else White);
      }
      var accepted := Move(r1, c1, r2, c2);
      if accepted {
        currentPlayer := if currentPlayer == White then Black else White;
      }
      return Played(accepted);
    }

    /** `move(r1, c1, r2, c2)`. */
    method Move(r1: int, c1: int, r2: int, c2: int) returns (ok: bool)
      requires Valid()
      modifies board, this`cells
      ensures Valid()
      ensures (ok, cells) == MoveSpec(old(cells), currentPlayer, r1, c1, r2, c2)
    {
      if !InBounds(r1, c1) || !InBounds(r2, c2) {
        return false;
      }
      var s, t := Square(r1, c1), Square(r2, c2);
      var x := board[r1, c1];
      if x.None? || x.value.color != currentPlayer {
        return false;
      }
      ok := OwnMove(x.value, s, t);
    }

    /** The rest of `move`: the capture search, the capture, or the plain move. */
    method OwnMove(p: Piece, s: Square, t: Square) returns (ok: bool)
      requires Valid() && OnBoard(s) && OnBoard(t) && At(cells, s) == Some(p)
      modifies board, this`cells
      ensures Valid()
      ensures (ok, cells) == OwnMoveSpec(old(cells), s, t)
    {
      ghost var g := cells;
      var captures := FindAllCaptureSequences(p.color);
      var mustCapture := |captures| > 0;
      var didCapture := TryCapture(s, t);
      if didCapture {
        CaptureAppliedPromoted(g, s, t);
        PromoteIfNeeded(t);
        return true;
      }
      if mustCapture {
        return false;
      }
      ok := QuietMove(p, s, t);
    }

    /** The last part of `move`: the Man step or the King slide. */
    method QuietMove(p: Piece, s: Square, t: Square) returns (ok: bool)
      requires Valid() && OnBoard(s) && OnBoard(t) && At(cells, s) == Some(p)
      modifies board, this`cells
      ensures Valid()
      ensures (ok, cells) == QuietMoveSpec(old(cells), p, s, t)
    {
      if p.rank == Man {
        var dir := if p.color == White then -1 else 1;
        if t.row == s.row + dir && Abs(t.col - s.col) == 1 && board[t.row, t.col].None? {
          Put(t, Some(p));
          Put(s, None);
          PromoteIfNeeded(t);
          return true;
        }
      } else {
        if Abs(t.row - s.row) == Abs(t.col - s.col) {
          var clear := ClearPath(s, t);
          if clear {
            Put(t, Some(p));
            Put(s, None);
            return true;
          }
        }
      }
      return false;
    }

    /**
     * `tryCapture`: a Man jumps two squares over an adjacent enemy onto an
     * empty square; a King scans from the origin towards the destination and
     * captures if it meets exactly one enemy and then reaches the destination
     * over empty squares.  The capture is applied without promotion.
     */
    method TryCapture(s: Square, t: Square) returns (ok: bool)
      requires Valid() && OnBoard(s) && OnBoard(t)
      modifies board, this`cells
      ensures Valid()
      ensures ok <==> At(old(cells), s).Some? && IsCaptureTarget(OwnersOf(old(cells)), At(old(cells), s).value, s, t)
      ensures ok ==> cells == CaptureApplied(old(cells), s, t)
      ensures !ok ==> cells == old(cells)
    {
      var x := board[s.row, s.col];
      if x.None? {
        return false;
      }
      var p := x.value;
      if p.rank == Man {
        ok := TryManCapture(p, s, t);
      } else {
        ok := TryKingCapture(p, s, t);
      }
    }

    method TryManCapture(p: Piece, s: Square, t: Square) returns (ok: bool)
      requires Valid() && OnBoard(s) && OnBoard(t) && At(cells, s) == Some(p) && p.rank == Man
      modifies board, this`cells
      ensures Valid()
      ensures ok <==> IsCaptureTarget(OwnersOf(old(cells)), p, s, t)
      ensures ok ==> cells == CaptureApplied(old(cells), s, t)
      ensures !ok ==> cells == old(cells)
    {
      ghost var o := OwnersOf(cells);
      ghost var g := cells;
      ok := false;
      if Abs(t.row - s.row) == 2 && Abs(t.col - s.col) == 2 {
        var m := Square((s.row + t.row) / 2, (s.col + t.col) / 2);
        RayOnDiagonal(s, t);
        assert m == Ray(s, DirTo(s, t), 1);
        var mid := board[m.row, m.col];
        if mid.Some? && mid.value.color != p.color && board[t.row, t.col].None? {
          assert CaptureStep(o, p, s, t, 1);
          Put(t, Some(p));
          Put(s, None);
          Put(m, None);
          CaptureAppliedAt(g, s, t, 1);
          ok := true;
        }
      }
    }

    method TryKingCapture(p: Piece, s: Square, t: Square) returns (ok: bool)
      requires Valid() && OnBoard(s) && OnBoard(t) && At(cells, s) == Some(p) && p.rank == King
      modifies board, this`cells
      ensures Valid()
      ensures ok <==> IsCaptureTarget(OwnersOf(old(cells)), p, s, t)
      ensures ok ==> cells == CaptureApplied(old(cells), s, t)
      ensures !ok ==> cells == old(cells)
    {
      ghost var o := OwnersOf(cells);
      ghost var g := cells;
      if Abs(t.row - s.row) != Abs(t.col - s.col) {
        return false;
      }
      if s == t {
        // The direction is (0, 0): the scan's first square is the King's own.
        return false;
      }
      var d := Dir(Sign(t.row - s.row), Sign(t.col - s.col));
      var i: int := 1;
      var captured := false;
      var e := Square(-1, -1);
      ghost var k := 0;
      TowardStart(o, p, s, t);
      while OnBoard(Ray(s, d, i))
        invariant Valid() && cells == g
        invariant TowardScan(o, p, s, t, i, captured, k, e)
        decreases 8 - i
      {
        RayBound(s, d, i);
        var sq := Ray(s, d, i);
        if board[sq.row, sq.col].Some? {
          if board[sq.row, sq.col].value.color == p.color || captured {
            TowardBlocked(o, p, s, t, i, captured, k, e);
            return false;
          }
          TowardEnemy(o, p, s, t, i, k, e);
          captured, e, k := true, sq, i;
        } else if captured && sq == t {
          TowardLanding(o, p, s, t, i, k, e);
          Put(t, Some(p));
          Put(s, None);
          Put(e, None);
          CaptureAppliedAt(g, s, t, k);
          return true;
        } else {
          TowardEmpty(o, p, s, t, i, captured, k, e);
        }
        i := i + 1;
      }
      TowardOff(o, p, s, t, i, captured, k, e);
      return false;
    }

    /** `hasFurtherCapture(r, c)`: the piece on `s`, if any, has a capture. */
    method HasFurtherCapture(s: Square) returns (b: bool)
      requires Valid() && OnBoard(s)
      ensures b <==> At(cells, s).Some? && CanCapture(OwnersOf(cells), At(cells, s).value, s)
    {
      var x := board[s.row, s.col];
      if x.None? {
        return false;
      }
      var p := x.value;
      ghost var o := OwnersOf(cells);
      CaptureInAllDirs(o, p, s);
      for j := 0 to 4
        invariant !CaptureInDirs(o, p, s, j)
      {
        var found;
        if p.rank == Man {
          found := ManHasCapture(p, s, Directions[j]);
        } else {
          found := KingHasCapture(p, s, Directions[j]);
        }
        if found {
          return true;
        }
      }
      return false;
    }

    /** The Man branch of `hasFurtherCapture` for one direction. */
    method ManHasCapture(p: Piece, s: Square, d: Dir) returns (found: bool)
      requires Valid() && OnBoard(s) && d in Directions && p.rank == Man
      ensures found <==> DirCanCapture(OwnersOf(cells), p, s, d)
    {
      ManDirCanCapture(OwnersOf(cells), p, s, d);
      var t, m := Ray(s, d, 2), Ray(s, d, 1);
      found := false;
      if InBounds(t.row, t.col) && board[t.row, t.col].None? {
        RayBetween(s, d, 1, 2);
        found := board[m.row, m.col].Some? && board[m.row, m.col].value.color != p.color;
      }
    }

    /** The King branch of `hasFurtherCapture` for one direction. */
    method KingHasCapture(p: Piece, s: Square, d: Dir) returns (found: bool)
      requires Valid() && OnBoard(s) && d in Directions && p.rank == King
      ensures found <==> DirCanCapture(OwnersOf(cells), p, s, d)
    {
      ghost var o := OwnersOf(cells);
      var i := 1;
      var enemyFound := false;
      ghost var k := 0;
      while OnBoard(Ray(s, d, i))
        invariant 1 <= i
        invariant !enemyFound ==> NoPieceBefore(o, s, d, i)
        invariant enemyFound ==> OnlyEnemyBetween(o, p.color, s, d, i, k)
        invariant forall m :: 1 <= m < i ==> !IsCaptureTarget(o, p, s, Ray(s, d, m))
        decreases 8 - i
      {
        var sq := Ray(s, d, i);
        if board[sq.row, sq.col].None? {
          if enemyFound {
            LandingAfterEnemy(o, p, s, d, i, k);
            return true;
          }
          NoLandingBeforeEnemy(o, p, s, d, i);
        } else {
          if board[sq.row, sq.col].value.color == p.color || enemyFound {
            Blocked(o, p, s, d, i, enemyFound, k);
            return false;
          }
          NotLandingOccupied(o, p, s, d, i);
          enemyFound, k := true, i;
        }
        i := i + 1;
      }
      OffBoardFrom(o, p, s, d, i);
      return false;
    }

    /** `findAllCaptureSequences(player)`: the chains of every piece of `color`, row by row. */
    method FindAllCaptureSequences(color: Color) returns (out: seq<seq<Square>>)
      requires Valid()
      modifies board, this`cells
      ensures Valid() && cells == old(cells)
      ensures out == ChainsBefore(cells, color, 8)
      ensures |out| > 0 <==> SideCanCapture(cells, color)
    {
      out := [];
      for r := 0 to 8
        invariant Valid() && cells == old(cells)
        invariant out == ChainsBefore(cells, color, r)
      {
        var row := ScanRow(color, r);
        out := out + row;
      }
      AllChainsNonEmpty(cells, color);
    }

    /** The inner loop of `findAllCaptureSequences`: the pieces of row `r`, left to right. */
    method ScanRow(color: Color, r: int) returns (out: seq<seq<Square>>)
      requires Valid() && 0 <= r < 8
      modifies board, this`cells
      ensures Valid() && cells == old(cells)
      ensures out == RowChains(cells, color, r, 8)
    {
      out := [];
      for c := 0 to 8
        invariant Valid() && cells == old(cells)
        invariant out == RowChains(cells, color, r, c)
      {
        var more := ScanSquare(color, Square(r, c));
        out := out + more;
      }
    }

    /** One square of `findAllCaptureSequences`: the chains of the piece there, if it is one of `color`'s. */
    method ScanSquare(color: Color, s: Square) returns (more: seq<seq<Square>>)
      requires Valid() && OnBoard(s)
      modifies board, this`cells
      ensures Valid() && cells == old(cells)
      ensures more == SquareChains(cells, color, s)
    {
      more := [];
      var x := board[s.row, s.col];
      if x.Some? && x.value.color == color {
        more := FindCaptureSequencesFrom(s);
      }
    }

    /**
     * `findCaptureSequencesFrom(r, c)`: back up the board, run the search
     * from the piece on `s`, and restore the board from the backup.
     */
    method FindCaptureSequencesFrom(s: Square) returns (out: seq<seq<Square>>)
      requires Valid() && OnBoard(s) && At(cells, s).Some?
      modifies board, this`cells
      ensures Valid() && cells == old(cells)
      ensures out == Chains(OwnersOf(cells), At(cells, s).value, s, [s])
    {
      ghost var g := cells;
      var startPiece := board[s.row, s.col].value;
      var backup := CopyBoard(board, cells);
      out := Rec(s, startPiece, [s]);
      for i := 0 to 8
        invariant Mirrors(backup, g) && board.Length0 == 8 && board.Length1 == 8
        invariant forall i', j :: 0 <= i' < i && 0 <= j < 8 ==> board[i', j] == g[i'][j]
      {
        for j := 0 to 8
          invariant Mirrors(backup, g)
          invariant forall i', j' :: 0 <= i' < i && 0 <= j' < 8 ==> board[i', j'] == g[i'][j']
          invariant forall j' :: 0 <= j' < j ==> board[i, j'] == g[i][j']
        {
          board[i, j] := backup[i, j];
        }
      }
      cells := g;
    }

    /**
     * `rec(rr, cc, p, path)`: the chains from `s` for the mover `p`.  Every
     * capture is applied, searched from, and undone; the colour view of the
     * board is the same afterwards (a King's undo puts a Man back on the
     * captured square, whatever stood there).
     */
    method Rec(s: Square, p: Piece, path: seq<Square>) returns (found: seq<seq<Square>>)
      requires Valid() && OnBoard(s) && At(cells, s) == Some(p)
      modifies board, this`cells
      ensures Valid() && OwnersOf(cells) == OwnersOf(old(cells)) && At(cells, s) == Some(p)
      ensures found == Chains(OwnersOf(old(cells)), p, s, path)
      decreases |Enemies(OwnersOf(cells), p.color)|, 2, 0
    {
      ghost var o := OwnersOf(cells);
      var extended := false;
      found := [];
      for j := 0 to 4
        invariant Valid() && OwnersOf(cells) == o && At(cells, s) == Some(p)
        invariant found + DirChains(o, p, s, path, j) == DirChains(o, p, s, path, 0)
        invariant extended <==> CaptureInDirs(o, p, s, j)
      {
        var more, ext := Jumps(s, p, path, j);
        DirChainsAppend(found, more, o, p, s, path, j);
        found := found + more;
        extended := extended || ext;
      }
      ChainsAssembled(found, extended, o, p, s, path);
      if !extended && |path| > 1 {
        found := found + [path];
      }
    }

    /** The body of the direction loop of `rec`: the Man or the King branch for `Directions[j]`. */
    method Jumps(s: Square, p: Piece, path: seq<Square>, j: int) returns (more: seq<seq<Square>>, ext: bool)
      requires Valid() && OnBoard(s) && At(cells, s) == Some(p) && 0 <= j < 4
      modifies board, this`cells
      ensures Valid() && OwnersOf(cells) == OwnersOf(old(cells)) && At(cells, s) == Some(p)
      ensures more + DirChains(OwnersOf(old(cells)), p, s, path, j + 1) == DirChains(OwnersOf(old(cells)), p, s, path, j)
      ensures ext <==> DirCanCapture(OwnersOf(old(cells)), p, s, Directions[j])
      decreases |Enemies(OwnersOf(cells), p.color)|, 1, 1
    {
      if p.rank == Man {
        more, ext := ManJumps(s, p, path, Directions[j]);
      } else {
        more, ext := KingJumps(s, p, path, Directions[j]);
      }
    }

    /** The Man branch of `rec` for direction `d`. */
    method ManJumps(s: Square, p: Piece, path: seq<Square>, d: Dir) returns (more: seq<seq<Square>>, ext: bool)
      requires Valid() && OnBoard(s) && At(cells, s) == Some(p) && d in Directions && p.rank == Man
      modifies board, this`cells
      ensures Valid() && OwnersOf(cells) == OwnersOf(old(cells)) && At(cells, s) == Some(p)
      ensures more == ManChains(OwnersOf(old(cells)), p, s, path, d)
      ensures ext <==> DirCanCapture(OwnersOf(old(cells)), p, s, d)
      decreases |Enemies(OwnersOf(cells), p.color)|, 1, 0
    {
      ghost var o := OwnersOf(cells);
      ManDirCanCapture(o, p, s, d);
      var t, m := Ray(s, d, 2), Ray(s, d, 1);
      more, ext := [], false;
      if InBounds(t.row, t.col) && board[t.row, t.col].None? {
        RayBetween(s, d, 1, 2);
        if board[m.row, m.col].Some? && board[m.row, m.col].value.color != p.color {
          more := ManJump(s, p, path, t, m);
          ext := true;
        }
      }
    }

    /** One Man capture of `rec`: apply, search on, undo (the captured piece is put back as it was). */
    method ManJump(s: Square, p: Piece, path: seq<Square>, t: Square, m: Square) returns (sub: seq<seq<Square>>)
      requires Valid() && OnBoard(s) && At(cells, s) == Some(p) && p.rank == Man
      requires EmptyAt(OwnersOf(cells), t) && EnemyAt(OwnersOf(cells), p.color, m) && s != t && s != m && t != m
      modifies board, this`cells
      ensures Valid() && OwnersOf(cells) == OwnersOf(old(cells)) && At(cells, s) == Some(p)
      ensures sub == Chains(ApplyJump(OwnersOf(old(cells)), p.color, s, t, m), p, t, path + [t])
      decreases |Enemies(OwnersOf(cells), p.color)|, 0, 0
    {
      ghost var o := OwnersOf(cells);
      var captured := board[m.row, m.col];
      ManJumpOwners(cells, p, s, t, m);
      Put(t, Some(p));
      Put(s, None);
      Put(m, None);
      EnemiesShrink(o, p.color, s, t, m);
      sub := Rec(t, p, path + [t]);
      UndoOwners(old(cells), cells, p, s, t, m, captured);
      Put(s, Some(p));
      Put(t, None);
      Put(m, captured);
    }

    /** The King branch of `rec` for direction `d`: every empty square after one enemy is a landing. */
    method KingJumps(s: Square, p: Piece, path: seq<Square>, d: Dir) returns (more: seq<seq<Square>>, ext: bool)
      requires Valid() && OnBoard(s) && At(cells, s) == Some(p) && d in Directions && p.rank == King
      modifies board, this`cells
      ensures Valid() && OwnersOf(cells) == OwnersOf(old(cells)) && At(cells, s) == Some(p)
      ensures more == KingScan(OwnersOf(old(cells)), p, s, path, d, 1, 0)
      ensures ext <==> DirCanCapture(OwnersOf(old(cells)), p, s, d)
      decreases |Enemies(OwnersOf(cells), p.color)|, 1, 0
    {
      ghost var o := OwnersOf(cells);
      var step := 1;
      var enemyFound := false;
      var e := Square(-1, -1);
      ghost var enemy := 0;
      more, ext := [], false;
      KingLoopStart(o, p, s, path, d);
      while OnBoard(Ray(s, d, step))
        invariant 1 <= step <= 8
        invariant Valid() && OwnersOf(cells) == o && At(cells, s) == Some(p)
        invariant KingLoop(o, p, s, path, d, step, enemy, e, more, ext) && (enemyFound <==> enemy > 0)
        decreases 8 - step
      {
        RayBound(s, d, step);
        var stop;
        more, ext, enemyFound, e, enemy, stop := KingVisit(s, p, path, d, step, more, ext, enemyFound, e, enemy);
        if stop {
          return;
        }
        step := step + 1;
      }
      KingLoopOff(o, p, s, path, d, step, enemy, e, more, ext);
    }

    /**
     * One square of the King branch of `rec`: after the enemy an empty square
     * is a landing and is searched from; an own piece or a second piece stops
     * the scan (`stop`); the first enemy is remembered.
     */
    method KingVisit(s: Square, p: Piece, path: seq<Square>, d: Dir, step: int, more: seq<seq<Square>>, ext: bool,
                     enemyFound: bool, e: Square, ghost enemy: int)
      returns (more': seq<seq<Square>>, ext': bool, enemyFound': bool, e': Square, ghost enemy': int, stop: bool)
      requires Valid() && OnBoard(s) && At(cells, s) == Some(p) && d in Directions && OnBoard(Ray(s, d, step))
      requires KingLoop(OwnersOf(cells), p, s, path, d, step, enemy, e, more, ext) && (enemyFound <==> enemy > 0)
      modifies board, this`cells
      ensures Valid() && OwnersOf(cells) == OwnersOf(old(cells)) && At(cells, s) == Some(p)
      ensures !stop ==> KingLoop(OwnersOf(cells), p, s, path, d, step + 1, enemy', e', more', ext') && (enemyFound' <==> enemy' > 0)
      ensures stop ==> more' == KingScan(OwnersOf(cells), p, s, path, d, 1, 0) && (ext' <==> DirCanCapture(OwnersOf(cells), p, s, d))
      decreases |Enemies(OwnersOf(cells), p.color)|, 0, 1
    {
      ghost var o := OwnersOf(cells);
      more', ext', enemyFound', e', enemy', stop := more, ext, enemyFound, e, enemy, false;
      var n := Ray(s, d, step);
      if board[n.row, n.col].None? {
        if enemyFound {
          KingLoopLandingSquares(o, p, s, path, d, step, enemy, e, more, ext);
          var sub := KingJump(s, p, path, n, e);
          KingLoopLanding(o, p, s, path, d, step, enemy, e, more, ext, sub);
          more', ext' := more + sub, true;
        } else {
          KingLoopEmpty(o, p, s, path, d, step, enemy, e, more, ext);
        }
      } else if board[n.row, n.col].value.color == p.color || enemyFound {
        KingLoopBlocked(o, p, s, path, d, step, enemy, e, more, ext);
        stop := true;
      } else {
        KingLoopEnemy(o, p, s, path, d, step, enemy, e, more, ext);
        enemyFound', e', enemy' := true, n, step;
      }
    }

    /** One King capture of `rec`: apply, search on, undo (the enemy comes back as a Man). */
    method KingJump(s: Square, p: Piece, path: seq<Square>, n: Square, e: Square) returns (sub: seq<seq<Square>>)
      requires Valid() && OnBoard(s) && At(cells, s) == Some(p)
      requires EmptyAt(OwnersOf(cells), n) && EnemyAt(OwnersOf(cells), p.color, e) && s != n && s != e && n != e
      modifies board, this`cells
      ensures Valid() && OwnersOf(cells) == OwnersOf(old(cells)) && At(cells, s) == Some(p)
      ensures sub == Chains(ApplyJump(OwnersOf(old(cells)), p.color, s, n, e), p, n, path + [n])
      decreases |Enemies(OwnersOf(cells), p.color)|, 0, 0
    {
      ghost var o := OwnersOf(cells);
      JumpOwners(cells, p, s, n, e);
      Put(s, None);
      Put(n, Some(p));
      Put(e, None);
      EnemiesShrink(o, p.color, s, n, e);
      sub := Rec(n, p, path + [n]);
      var restored := Piece(if p.color == White then Black else White, Man);
      UndoOwners(old(cells), cells, p, s, n, e, Some(restored));
      Put(s, Some(p));
      Put(n, None);
      Put(e, Some(restored));
    }

    /** One array write `board[r][c] = x`. */
    method Put(sq: Square, x: Option<Piece>)
      requires Valid() && OnBoard(sq)
      modifies board, this`cells
      ensures Valid() && cells == SetCell(old(cells), sq, x)
    {
      board[sq.row, sq.col] := x;
      cells := SetCell(cells, sq, x);
    }

    /** `copyBoard(b)`: a new board with the same contents. */
    static method CopyBoard(b: array2<Option<Piece>>, ghost g: Grid) returns (c: array2<Option<Piece>>)
      requires Mirrors(b, g)
      ensures fresh(c) && Mirrors(c, g)
    {
      c := new Option<Piece>[8, 8]((_, _) => None);
      for i := 0 to 8
        invariant forall i', j :: 0 <= i' < i && 0 <= j < 8 ==> c[i', j] == g[i'][j]
        invariant forall i', j :: i <= i' < 8 && 0 <= j < 8 ==> c[i', j].None?
      {
        for j := 0 to 8
          invariant forall i', j' :: 0 <= i' < i && 0 <= j' < 8 ==> c[i', j'] == g[i'][j']
          invariant forall j' :: 0 <= j' < j ==> c[i, j'] == g[i][j']
          invariant forall i', j' :: i <= i' < 8 && 0 <= j' < 8 && (i' > i || j' >= j) ==> c[i', j'].None?
        {
          if b[i, j].Some? {
            c[i, j] := Some(Piece(b[i, j].value.color, b[i, j].value.rank));
          }
        }
      }
    }

    /**
     * `clearPath`: walk from the origin towards the destination and refuse at
     * the first occupied square; the destination itself is not examined, and
     * for `s == t` there is nothing to walk.
     */
    method ClearPath(s: Square, t: Square) returns (clear: bool)
      requires Valid() && OnBoard(s) && OnBoard(t) && Abs(t.row - s.row) == Abs(t.col - s.col)
      ensures clear <==> PathClear(OwnersOf(cells), s, t)
    {
      ghost var o := OwnersOf(cells);
      var d := Dir(Sign(t.row - s.row), Sign(t.col - s.col));
      if s != t {
        RayOnDiagonal(s, t);
      }
      var i := 1;
      while Ray(s, d, i) != t
        invariant 1 <= i <= Dist(s, t) || (s == t && i == 1)
        invariant NoPieceBefore(o, s, d, i)
        decreases Dist(s, t) - i
      {
        RayBetween(s, d, i, Dist(s, t));
        if board[Ray(s, d, i).row, Ray(s, d, i).col].Some? {
          return false;
        }
        i := i + 1;
      }
      return true;
    }

    /** `promoteIfNeeded(r, c)`. */
    method PromoteIfNeeded(t: Square)
      requires Valid() && OnBoard(t)
      modifies board, this`cells
      ensures Valid() && cells == Promote(old(cells), t)
    {
      var x := board[t.row, t.col];
      if x.Some? && x.value.rank == Man {
        if (x.value.color == White && t.row == 0) || (x.value.color == Black && t.row == 7) {
          board[t.row, t.col] := Some(Piece(x.value.color, King));
          cells := SetCell(cells, t, Some(Piece(x.value.color, King)));
        }
      }
    }

    /** `isGameOver`: one of the colours has no piece left. */
    method IsGameOver() returns (over: bool)
      requires Valid()
      ensures over <==> !(HasPiece(cells, White) && HasPiece(cells, Black))
    {
      var whiteExists, blackExists := false, false;
      for r := 0 to 8
        invariant whiteExists <==> PieceBefore(cells, White, r, 0)
        invariant blackExists <==> PieceBefore(cells, Black, r, 0)
      {
        for c := 0 to 8
          invariant whiteExists <==> PieceBefore(cells, White, r, c)
          invariant blackExists <==> PieceBefore(cells, Black, r, c)
        {
          var x := board[r, c];
          if x.Some? {
            if x.value.color == White {
              whiteExists := true;
            } else {
              blackExists := true;
            }
          }
          SurveyStep(cells, r, c);
        }
      }
      assert forall s :: OnBoard(s) ==> Before(s, 8, 0);
      return !(whiteExists && blackExists);
    }
  }

  /** The writes of a King's capture in `rec`, seen as colours. */
  lemma JumpOwners(g: Grid, p: Piece, s: Square, n: Square, e: Square)
    requires OnBoard(s) && OnBoard(n) && OnBoard(e)
    ensures OwnersOf(SetCell(SetCell(SetCell(g, s, None), n, Some(p)), e, None)) == ApplyJump(OwnersOf(g), p.color, s, n, e)
  {
    GridExt(OwnersOf(SetCell(SetCell(SetCell(g, s, None), n, Some(p)), e, None)), ApplyJump(OwnersOf(g), p.color, s, n, e));
  }

  /** The writes of a Man's capture in `rec` (destination first), seen as colours. */
  lemma ManJumpOwners(g: Grid, p: Piece, s: Square, t: Square, m: Square)
    requires OnBoard(s) && OnBoard(t) && OnBoard(m) && s != t
    ensures OwnersOf(SetCell(SetCell(SetCell(g, t, Some(p)), s, None), m, None)) == ApplyJump(OwnersOf(g), p.color, s, t, m)
  {
    GridExt(OwnersOf(SetCell(SetCell(SetCell(g, t, Some(p)), s, None), m, None)), ApplyJump(OwnersOf(g), p.color, s, t, m));
  }

  /** Undoing a capture restores the colour view, provided `x` has the captured piece's colour. */
  lemma UndoOwners(g: Grid, h: Grid, p: Piece, s: Square, n: Square, e: Square, x: Option<Piece>)
    requires OnBoard(s) && OnBoard(n) && OnBoard(e) && s != n && s != e && n != e
    requires OwnersOf(h) == ApplyJump(OwnersOf(g), p.color, s, n, e)
    requires ColorOf(At(g, s)) == Some(p.color) && At(g, n).None? && ColorOf(x) == ColorOf(At(g, e))
    ensures OwnersOf(SetCell(SetCell(SetCell(h, s, Some(p)), n, None), e, x)) == OwnersOf(g)
  {
    var h' := SetCell(SetCell(SetCell(h, s, Some(p)), n, None), e, x);
    forall i, j | 0 <= i < 8 && 0 <= j < 8
      ensures OwnersOf(h')[i][j] == OwnersOf(g)[i][j]
    {
      if Square(i, j) != s && Square(i, j) != n && Square(i, j) != e {
        assert ColorOf(h[i][j]) == OwnersOf(h)[i][j];
      }
    }
    GridExt(OwnersOf(h'), OwnersOf(g));
  }

  lemma CaptureAppliedAt(g: Grid, s: Square, t: Square, k: int)
    requires OnBoard(s) && OnBoard(t) && At(g, s).Some?
    requires CaptureStep(OwnersOf(g), At(g, s).value, s, t, k)
    ensures CaptureApplied(g, s, t) == SetCell(SetCell(SetCell(g, t, At(g, s)), s, None), Captured(s, t, k), None)
  {
    var k' :| CaptureStep(OwnersOf(g), At(g, s).value, s, t, k');
    CaptureStepUnique(OwnersOf(g), At(g, s).value, s, t, k, k');
  }

  /** Promoting after `tryCapture` gives the shared jump result. */
  lemma CaptureAppliedPromoted(g: Grid, s: Square, t: Square)
    requires OnBoard(s) && OnBoard(t) && At(g, s).Some?
    requires exists k :: CaptureStep(OwnersOf(g), At(g, s).value, s, t, k)
    ensures Promote(CaptureApplied(g, s, t), t) == JumpResult(g, s, t)
  {
    var k :| CaptureStep(OwnersOf(g), At(g, s).value, s, t, k);
    CaptureAppliedAt(g, s, t, k);
    JumpResultAt(g, s, t, k);
    JumpEffect(g, s, t, k);
    var e := Captured(s, t, k);
    GridExt(CaptureApplied(g, s, t), SetCell(SetCell(SetCell(g, e, None), t, At(SetCell(g, e, None), s)), s, None));
  }

  /**
   * The state of the King branch of `tryCapture` before the square at
   * distance `i` from `s` towards `t`: nothing seen yet, or exactly one enemy
   * at distance `k` (on `e`); `t` has not been passed, or it is no landing.
   */
  ghost predicate TowardScan(o: Owners, p: Piece, s: Square, t: Square, i: int, captured: bool, k: int, e: Square) {
    OnBoard(s) && Diagonal(s, t) && p.rank == King && 1 <= i &&
    (i <= Dist(s, t) || !IsCaptureTarget(o, p, s, t)) &&
    (!captured ==> NoPieceBefore(o, s, DirTo(s, t), i)) &&
    (captured ==> OnlyEnemyBetween(o, p.color, s, DirTo(s, t), i, k) && e == Ray(s, DirTo(s, t), k))
  }

  lemma TowardStart(o: Owners, p: Piece, s: Square, t: Square)
    requires OnBoard(s) && Diagonal(s, t) && p.rank == King
    ensures TowardScan(o, p, s, t, 1, false, 0, Square(-1, -1))
  {
    RayOnDiagonal(s, t);
  }

  lemma TowardEnemy(o: Owners, p: Piece, s: Square, t: Square, i: int, k: int, e: Square)
    requires TowardScan(o, p, s, t, i, false, k, e) && EnemyAt(o, p.color, Ray(s, DirTo(s, t), i))
    ensures TowardScan(o, p, s, t, i + 1, true, i, Ray(s, DirTo(s, t), i))
  {
    RayOnDiagonal(s, t);
    RayDirection(s, DirTo(s, t), i);
    NotLandingOccupied(o, p, s, DirTo(s, t), i);
  }

  lemma TowardEmpty(o: Owners, p: Piece, s: Square, t: Square, i: int, captured: bool, k: int, e: Square)
    requires TowardScan(o, p, s, t, i, captured, k, e) && EmptyAt(o, Ray(s, DirTo(s, t), i))
    requires captured ==> Ray(s, DirTo(s, t), i) != t
    ensures TowardScan(o, p, s, t, i + 1, captured, k, e)
  {
    RayOnDiagonal(s, t);
    RayDirection(s, DirTo(s, t), i);
    if !captured {
      NoLandingBeforeEnemy(o, p, s, DirTo(s, t), i);
    }
  }

  lemma TowardBlocked(o: Owners, p: Piece, s: Square, t: Square, i: int, captured: bool, k: int, e: Square)
    requires TowardScan(o, p, s, t, i, captured, k, e) && OnBoard(Ray(s, DirTo(s, t), i))
    requires o[Ray(s, DirTo(s, t), i).row][Ray(s, DirTo(s, t), i).col].Some?
    requires !captured ==> o[Ray(s, DirTo(s, t), i).row][Ray(s, DirTo(s, t), i).col].value == p.color
    ensures !IsCaptureTarget(o, p, s, t)
  {
    RayOnDiagonal(s, t);
    Blocked(o, p, s, DirTo(s, t), i, captured, k);
    if Dist(s, t) >= i {
      assert !IsCaptureTarget(o, p, s, Ray(s, DirTo(s, t), Dist(s, t)));
    }
  }

  lemma TowardLanding(o: Owners, p: Piece, s: Square, t: Square, i: int, k: int, e: Square)
    requires TowardScan(o, p, s, t, i, true, k, e) && EmptyAt(o, t) && Ray(s, DirTo(s, t), i) == t
    ensures CaptureStep(o, p, s, t, k) && IsCaptureTarget(o, p, s, t) && e == Captured(s, t, k)
  {
    RayOnDiagonal(s, t);
    RayDirection(s, DirTo(s, t), i);
    LandingAfterEnemy(o, p, s, DirTo(s, t), i, k);
  }

  lemma TowardOff(o: Owners, p: Piece, s: Square, t: Square, i: int, captured: bool, k: int, e: Square)
    requires TowardScan(o, p, s, t, i, captured, k, e) && !OnBoard(Ray(s, DirTo(s, t), i))
    ensures !IsCaptureTarget(o, p, s, t)
  {
    RayOnDiagonal(s, t);
    if i <= Dist(s, t) {
      RayLeaves(s, DirTo(s, t), i, Dist(s, t));
    }
  }

  /** One more direction of `rec`'s loop. */
  lemma DirChainsAppend(found: seq<seq<Square>>, more: seq<seq<Square>>, o: Owners, p: Piece, s: Square, path: seq<Square>, j: int)
    requires OnBoard(s) && 0 <= j < 4
    requires found + DirChains(o, p, s, path, j) == DirChains(o, p, s, path, 0)
    requires more + DirChains(o, p, s, path, j + 1) == DirChains(o, p, s, path, j)
    ensures (found + more) + DirChains(o, p, s, path, j + 1) == DirChains(o, p, s, path, 0)
  {
    assert (found + more) + DirChains(o, p, s, path, j + 1) == found + (more + DirChains(o, p, s, path, j + 1));
  }

  /** After the four directions, `rec` adds the path itself when no capture continued it. */
  lemma ChainsAssembled(found: seq<seq<Square>>, extended: bool, o: Owners, p: Piece, s: Square, path: seq<Square>)
    requires OnBoard(s)
    requires found + DirChains(o, p, s, path, 4) == DirChains(o, p, s, path, 0)
    requires extended <==> CaptureInDirs(o, p, s, 4)
    ensures (if !extended && |path| > 1 then found + [path] else found) == Chains(o, p, s, path)
  {
    CaptureInAllDirs(o, p, s);
    assert found == found + DirChains(o, p, s, path, 4);
  }

  /** The piece of `color` on `s` has a capture. */
  ghost predicate SquareCanCapture(g: Grid, color: Color, s: Square) {
    OwnPieceAt(g, color, s) && CanCapture(OwnersOf(g), At(g, s).value, s)
  }

  /** One of (r, 0) .. (r, c-1) holds a piece of `color` with a capture. */
  ghost predicate RowHasCapture(g: Grid, color: Color, r: int, c: int) {
    exists j :: 0 <= j < c && SquareCanCapture(g, color, Square(r, j))
  }

  /** One of the squares of rows 0 .. r-1 holds a piece of `color` with a capture. */
  ghost predicate RowsHaveCapture(g: Grid, color: Color, r: int) {
    exists s: Square :: 0 <= s.row < r && SquareCanCapture(g, color, s)
  }

  /** The chains of (r, 0) .. (r, c-1) are non-empty exactly when one of those squares has a capture. */
  lemma {:induction false} RowChainsNonEmpty(g: Grid, color: Color, r: int, c: int)
    requires 0 <= r < 8 && 0 <= c <= 8
    ensures RowChains(g, color, r, c) != [] <==> RowHasCapture(g, color, r, c)
  {
    if c > 0 {
      RowChainsNonEmpty(g, color, r, c - 1);
      SquareChainsNonEmpty(g, color, Square(r, c - 1));
      var a, b := RowChains(g, color, r, c - 1), SquareChains(g, color, Square(r, c - 1));
      assert RowChains(g, color, r, c) == a + b;
      assert |a + b| == |a| + |b|;
      RowHasCaptureStep(g, color, r, c);
    }
  }

  lemma RowHasCaptureStep(g: Grid, color: Color, r: int, c: int)
    requires 0 <= r < 8 && 0 < c <= 8
    ensures RowHasCapture(g, color, r, c) <==> RowHasCapture(g, color, r, c - 1) || SquareCanCapture(g, color, Square(r, c - 1))
  {
    if RowHasCapture(g, color, r, c) {
      var j :| 0 <= j < c && SquareCanCapture(g, color, Square(r, j));
      if j < c - 1 {
        assert 0 <= j < c - 1 && SquareCanCapture(g, color, Square(r, j));
      }
    }
    if RowHasCapture(g, color, r, c - 1) {
      var j :| 0 <= j < c - 1 && SquareCanCapture(g, color, Square(r, j));
      assert 0 <= j < c && SquareCanCapture(g, color, Square(r, j));
    }
  }

  /** The chains of rows 0 .. r-1 are non-empty exactly when one of their squares has a capture. */
  lemma {:induction false} ChainsBeforeNonEmpty(g: Grid, color: Color, r: int)
    requires 0 <= r <= 8
    ensures ChainsBefore(g, color, r) != [] <==> RowsHaveCapture(g, color, r)
  {
    if r > 0 {
      ChainsBeforeNonEmpty(g, color, r - 1);
      RowChainsNonEmpty(g, color, r - 1, 8);
      var a, b := ChainsBefore(g, color, r - 1), RowChains(g, color, r - 1, 8);
      assert |a + b| == |a| + |b|;
      RowsHaveCaptureStep(g, color, r);
    }
  }

  lemma RowsHaveCaptureStep(g: Grid, color: Color, r: int)
    requires 0 < r <= 8
    ensures RowsHaveCapture(g, color, r) <==> RowsHaveCapture(g, color, r - 1) || RowHasCapture(g, color, r - 1, 8)
  {
    if RowsHaveCapture(g, color, r) {
      var s: Square :| 0 <= s.row < r && SquareCanCapture(g, color, s);
      if s.row == r - 1 {
        assert Square(r - 1, s.col) == s;
      }
    }
    if RowHasCapture(g, color, r - 1, 8) {
      var j :| 0 <= j < 8 && SquareCanCapture(g, color, Square(r - 1, j));
      assert 0 <= Square(r - 1, j).row < r;
    }
  }

  lemma SquareChainsNonEmpty(g: Grid, color: Color, s: Square)
    requires OnBoard(s)
    ensures SquareChains(g, color, s) != [] <==> OwnPieceAt(g, color, s) && CanCapture(OwnersOf(g), At(g, s).value, s)
  {
    if OwnPieceAt(g, color, s) {
      ChainsFromStart(OwnersOf(g), At(g, s).value, s);
    }
  }

  /**
   * The chains reported for a square are exactly the maximal chains, holding
   * at least one capture, of the player's own piece standing there.
   */
  lemma SquareChainsExact(g: Grid, color: Color, s: Square, q: seq<Square>)
    requires OnBoard(s)
    ensures q in SquareChains(g, color, s) <==>
      OwnPieceAt(g, color, s) && |q| >= 2 && q[0] == s && IsMaximalChain(OwnersOf(g), At(g, s).value, q)
  {
    if OwnPieceAt(g, color, s) {
      ChainsFromStart(OwnersOf(g), At(g, s).value, s);
      ChainsFromStartComplete(OwnersOf(g), At(g, s).value, s);
    }
  }

  /** The row-major search reports chains exactly when some piece of `color` has a capture. */
  lemma AllChainsNonEmpty(g: Grid, color: Color)
    ensures ChainsBefore(g, color, 8) != [] <==> SideCanCapture(g, color)
  {
    ChainsBeforeNonEmpty(g, color, 8);
    if SideCanCapture(g, color) {
      var s :| OwnPieceAt(g, color, s) && CanCapture(OwnersOf(g), At(g, s).value, s);
      assert SquareCanCapture(g, color, s);
    }
  }

  /**
   * A King sent to its own square when no capture is available is
   * accepted, and the piece vanishes: the slide copies it onto itself and
   * then clears the origin.
   */
  lemma KingStandingStillVanishes(g: Grid, s: Square)
    requires OnBoard(s) && At(g, s).Some? && At(g, s).value.rank == King
    requires !SideCanCapture(g, At(g, s).value.color)
    ensures MoveSpec(g, At(g, s).value.color, s.row, s.col, s.row, s.col) == (true, SetCell(g, s, None))
  {
    assert !IsCaptureTarget(OwnersOf(g), At(g, s).value, s, s);
    GridExt(Slide(g, s, s), SetCell(g, s, None));
  }

  /**
   * A side whose last piece is a King, with no capture available, may send
   * it to its own square: the move is accepted and the side has no piece
   * left.  The turn has passed to the opponent, so the next round of `main`
   * ends the game naming the player not to move, the side that just lost
   * its last piece, as the winner.
   */
  lemma LastPieceLostWins(g: Grid, s: Square)
    requires OnBoard(s) && At(g, s).Some? && At(g, s).value.rank == King
    requires forall i, j :: 0 <= i < 8 && 0 <= j < 8 && Square(i, j) != s ==> ColorOf(g[i][j]) != Some(At(g, s).value.color)
    requires !SideCanCapture(g, At(g, s).value.color)
    ensures var c := At(g, s).value.color;
      var (ok, h) := MoveSpec(g, c, s.row, s.col, s.row, s.col);
      ok && !HasPiece(h, c) && !(HasPiece(h, White) && HasPiece(h, Black))
  {
    var c := At(g, s).value.color;
    KingStandingStillVanishes(g, s);
    var h := SetCell(g, s, None);
    forall q | OnBoard(q)
      ensures !OwnPieceAt(h, c, q)
    {
      assert h[q.row][q.col] == if q == s then None else g[q.row][q.col];
    }
  }

  /**
   * A King's slide does not look at its destination: along a clear
   * diagonal onto an occupied square the move is accepted, and the piece
   * that stood there, of either colour, is overwritten.
   */
  lemma KingSlideOverwrites(g: Grid, s: Square, t: Square)
    requires OnBoard(s) && OnBoard(t) && Diagonal(s, t) && At(g, s).Some? && At(g, s).value.rank == King
    requires At(g, t).Some? && !SideCanCapture(g, At(g, s).value.color) && PathClear(OwnersOf(g), s, t)
    ensures var (ok, h) := MoveSpec(g, At(g, s).value.color, s.row, s.col, t.row, t.col);
      ok && At(h, t) == At(g, s) && At(h, s).None?
  {
    assert !EmptyAt(OwnersOf(g), t);
  }
}

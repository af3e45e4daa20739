/**
 * The 8x8 draughts board shared by every engine of the system: pieces,
 * squares, diagonal rays, the initial layout and the capture rule.
 *
 * The engines keep the board in a mutable 8x8 array (the Java sources use a
 * `String[8][8]` with the codes "⚪", "⚫", "⚪D", "⚫D" and "", or an array of
 * `Piece` objects).  Here a square holds `Option<Piece>`: a code containing
 * "⚪" is a White piece, any other non-empty code a Black one, and a code
 * containing "D" (dama) a King.  Specifications speak about the immutable
 * value `Grid`; `Mirrors` ties an array to the grid it currently holds.
 */
module Board {
  import opened JavaInt

  datatype Color = White | Black
  datatype Rank = Man | King
  datatype Piece = Piece(color: Color, rank: Rank)
  datatype Square = Square(row: int, col: int)

  function Opponent(c: Color): Color {
    if c == White then Black else White
  }

  /** The colour a `whiteTurn` / `vezBrancas` flag gives the move to. */
  function SideToMove(whiteTurn: bool): Color {
    if whiteTurn then White else Black
  }

  /** The row step a Man of this colour moves by: White moves up, Black down. */
  function Forward(c: Color): int {
    if c == White then -1 else 1
  }

  predicate InBounds(r: int, c: int) {
    0 <= r < 8 && 0 <= c < 8
  }

  predicate OnBoard(s: Square) {
    InBounds(s.row, s.col)
  }

  /** Playable squares are those where row + column is odd. */
  predicate Dark(r: int, c: int) {
    (r + c) % 2 == 1
  }

  predicate Is8x8<X>(g: seq<seq<X>>) {
    |g| == 8 && forall i :: 0 <= i < 8 ==> |g[i]| == 8
  }

  /** The contents of the board, row by row. */
  type Grid = g: seq<seq<Option<Piece>>> | Is8x8(g) witness seq(8, _ => seq(8, _ => None))

  /** Who owns each square: all that the capture and blockade rules look at. */
  type Owners = o: seq<seq<Option<Color>>> | Is8x8(o) witness seq(8, _ => seq(8, _ => None))

  function At(g: Grid, s: Square): Option<Piece>
    requires OnBoard(s)
  {
    g[s.row][s.col]
  }

  /** The board `g` with square `s` set to `x`: one array write. */
  function SetCell<X>(g: seq<seq<X>>, s: Square, x: X): (h: seq<seq<X>>)
    requires Is8x8(g) && OnBoard(s)
    ensures Is8x8(h)
    ensures forall i, j :: 0 <= i < 8 && 0 <= j < 8 ==>
      h[i][j] == if i == s.row && j == s.col then x else g[i][j]
  {
    g[s.row := g[s.row][s.col := x]]
  }

  function ColorOf(x: Option<Piece>): Option<Color> {
    if x.Some? then Some(x.value.color) else None
  }

  function OwnersOf(g: Grid): (o: Owners)
    ensures forall i, j :: 0 <= i < 8 && 0 <= j < 8 ==> o[i][j] == ColorOf(g[i][j])
  {
    seq(8, i requires 0 <= i < 8 => seq(8, j requires 0 <= j < 8 => ColorOf(g[i][j])))
  }

  /** Two 8x8 grids that agree on every square are equal. */
  lemma GridExt<X>(g: seq<seq<X>>, h: seq<seq<X>>)
    requires Is8x8(g) && Is8x8(h)
    requires forall i, j :: 0 <= i < 8 && 0 <= j < 8 ==> g[i][j] == h[i][j]
    ensures g == h
  {
    forall i | 0 <= i < 8
      ensures g[i] == h[i]
    {
      assert forall j :: 0 <= j < 8 ==> g[i][j] == h[i][j];
    }
  }

  /** The array `a` currently holds the grid `g`. */
  ghost predicate Mirrors(a: array2<Option<Piece>>, g: Grid)
    reads a
  {
    a.Length0 == 8 && a.Length1 == 8 &&
    forall r, c :: 0 <= r < 8 && 0 <= c < 8 ==> a[r, c] == g[r][c]
  }

  // ---------------------------------------------------------------------
  // Initial layout
  // ---------------------------------------------------------------------

  /** Black men on the dark squares of rows 0-2, White men on those of rows 5-7. */
  function InitialCell(r: int, c: int): Option<Piece> {
    if Dark(r, c) && r < 3 then Some(Piece(Black, Man))
    else if Dark(r, c) && r > 4 then Some(Piece(White, Man))
    else None
  }

  function InitialGrid(): (g: Grid)
    ensures forall r, c :: 0 <= r < 8 && 0 <= c < 8 ==> g[r][c] == InitialCell(r, c)
  {
    seq(8, r requires 0 <= r < 8 => seq(8, c requires 0 <= c < 8 => InitialCell(r, c)))
  }

  /**
   * The loop of `initializeBoard`/`inicializarTabuleiro`: every square is
   * cleared, then the dark squares of rows 0-2 get a Black man and those of
   * rows 5-7 a White man.
   */
  method InitializeBoard(a: array2<Option<Piece>>)
    requires a.Length0 == 8 && a.Length1 == 8
    modifies a
    ensures Mirrors(a, InitialGrid())
  {
    for r := 0 to 8
      invariant forall i, j :: 0 <= i < r && 0 <= j < 8 ==> a[i, j] == InitialCell(i, j)
    {
      for c := 0 to 8
        invariant forall i, j :: 0 <= i < r && 0 <= j < 8 ==> a[i, j] == InitialCell(i, j)
        invariant forall j :: 0 <= j < c ==> a[r, j] == InitialCell(r, j)
      {
        a[r, c] := None;
        if (r + c) % 2 == 1 {
          if r < 3 {
            a[r, c] := Some(Piece(Black, Man));
          } else if r > 4 {
            a[r, c] := Some(Piece(White, Man));
          }
        }
      }
    }
  }

  // ---------------------------------------------------------------------
  // Diagonals
  // ---------------------------------------------------------------------

  function Abs(x: int): nat {
    if x < 0 then -x else x
  }

  /** `Integer.signum`. */
  function Sign(x: int): int {
    if x < 0 then -1 else if x > 0 then 1 else 0
  }

  /** `x + sign * i` for a sign in {-1, 0, 1}, written without multiplication. */
  function Step(x: int, sign: int, i: int): int {
    if sign < 0 then x - i else if sign > 0 then x + i else x
  }

  datatype Dir = Dir(dr: int, dc: int)

  /** The four diagonal directions, in the order the sources visit them. */
  const Directions: seq<Dir> := [Dir(-1, -1), Dir(-1, 1), Dir(1, -1), Dir(1, 1)]

  /** The square `i` steps away from `s` in direction `d`. */
  function Ray(s: Square, d: Dir, i: int): Square {
    Square(Step(s.row, d.dr, i), Step(s.col, d.dc, i))
  }

  function DirTo(s: Square, t: Square): Dir {
    Dir(Sign(t.row - s.row), Sign(t.col - s.col))
  }

  function Dist(s: Square, t: Square): nat {
    Abs(t.row - s.row)
  }

  /** `t` lies on a diagonal through `s`, at distance at least one. */
  predicate Diagonal(s: Square, t: Square) {
    Abs(t.row - s.row) == Abs(t.col - s.col) >= 1
  }

  lemma RayOnDiagonal(s: Square, t: Square)
    requires Diagonal(s, t)
    ensures DirTo(s, t) in Directions && Ray(s, DirTo(s, t), Dist(s, t)) == t && Dist(s, t) >= 1
  {
  }

  lemma RayDirection(s: Square, d: Dir, m: int)
    requires d in Directions && m >= 1
    ensures Diagonal(s, Ray(s, d, m)) && DirTo(s, Ray(s, d, m)) == d && Dist(s, Ray(s, d, m)) == m
  {
  }

  /** Once a ray leaves the board it stays off it. */
  lemma RayLeaves(s: Square, d: Dir, i: int, m: int)
    requires OnBoard(s) && d in Directions && 1 <= i <= m && !OnBoard(Ray(s, d, i))
    ensures !OnBoard(Ray(s, d, m))
  {
  }

  /** A ray stays on the board for at most seven steps. */
  lemma RayBound(s: Square, d: Dir, i: int)
    requires OnBoard(s) && d in Directions && OnBoard(Ray(s, d, i)) && i >= 1
    ensures i <= 7
  {
  }

  /** The squares strictly between two on-board squares of a ray are on the board. */
  lemma RayBetween(s: Square, d: Dir, i: int, m: int)
    requires OnBoard(s) && d in Directions && 0 <= i <= m && OnBoard(Ray(s, d, m))
    ensures OnBoard(Ray(s, d, i))
  {
  }

  // ---------------------------------------------------------------------
  // The capture rule
  // ---------------------------------------------------------------------

  predicate EmptyAt(o: Owners, s: Square) {
    OnBoard(s) && o[s.row][s.col].None?
  }

  predicate EnemyAt(o: Owners, color: Color, s: Square) {
    OnBoard(s) && o[s.row][s.col].Some? && o[s.row][s.col].value != color
  }

  /**
   * Along direction `d` from `s`, of the squares at distances 1 .. n-1
   * exactly one is occupied, the one at distance `k`, and it holds an enemy.
   */
  predicate OnlyEnemyBetween(o: Owners, color: Color, s: Square, d: Dir, n: int, k: int) {
    1 <= k < n && EnemyAt(o, color, Ray(s, d, k)) &&
    forall i :: 1 <= i < n && i != k ==> EmptyAt(o, Ray(s, d, i))
  }

  /**
   * Piece `p` standing on `s` jumps to `t` over the enemy at distance `k`:
   * `t` is on a diagonal, a Man jumps exactly two squares (so k = 1), and the
   * enemy is the only piece strictly between `s` and `t`.  The emptiness of
   * `t` is not part of this relation (the sources check it separately).
   */
  predicate CaptureStep(o: Owners, p: Piece, s: Square, t: Square, k: int) {
    Diagonal(s, t) &&
    (p.rank == Man ==> Dist(s, t) == 2) &&
    OnlyEnemyBetween(o, p.color, s, DirTo(s, t), Dist(s, t), k)
  }

  /** The square captured by a jump. */
  function Captured(s: Square, t: Square, k: int): Square {
    Ray(s, DirTo(s, t), k)
  }

  /**
   * `t` is a landing square of a capture by `p` from `s`: the destination is an
   * empty square of the board and exactly one enemy stands between.
   */
  ghost predicate IsCaptureTarget(o: Owners, p: Piece, s: Square, t: Square) {
    EmptyAt(o, t) && exists k :: CaptureStep(o, p, s, t, k)
  }

  ghost predicate CanCapture(o: Owners, p: Piece, s: Square) {
    exists t :: IsCaptureTarget(o, p, s, t)
  }

  /** Every square strictly between `s` and `t` on their diagonal is empty. */
  ghost predicate PathClear(o: Owners, s: Square, t: Square) {
    forall i :: 1 <= i < Dist(s, t) ==> EmptyAt(o, Ray(s, DirTo(s, t), i))
  }

  /** `color` owns the piece on `s`. */
  predicate OwnPieceAt(g: Grid, color: Color, s: Square) {
    OnBoard(s) && At(g, s).Some? && At(g, s).value.color == color
  }

  /** Some piece of `color` has a capture (the mandatory-capture condition). */
  ghost predicate SideCanCapture(g: Grid, color: Color) {
    exists s :: OwnPieceAt(g, color, s) && CanCapture(OwnersOf(g), At(g, s).value, s)
  }

  /** The enemy a jump passes over is unique. */
  lemma CaptureStepUnique(o: Owners, p: Piece, s: Square, t: Square, k1: int, k2: int)
    requires CaptureStep(o, p, s, t, k1) && CaptureStep(o, p, s, t, k2)
    ensures k1 == k2
  {
  }

  // ---------------------------------------------------------------------
  // Moving a piece
  // ---------------------------------------------------------------------

  /**
   * Promotion as the sources do it after a move: a White man on row 0 or a
   * Black man on row 7 becomes a King; nothing else changes.
   */
  function Promote(g: Grid, t: Square): (h: Grid)
    requires OnBoard(t)
  {
    if At(g, t) == Some(Piece(White, Man)) && t.row == 0 then SetCell(g, t, Some(Piece(White, King)))
    else if At(g, t) == Some(Piece(Black, Man)) && t.row == 7 then SetCell(g, t, Some(Piece(Black, King)))
    else g
  }

  /** Copy the origin to the destination, clear the origin, then promote. */
  function MoveAndPromote(g: Grid, s: Square, t: Square): Grid
    requires OnBoard(s) && OnBoard(t)
  {
    Promote(SetCell(SetCell(g, t, At(g, s)), s, None), t)
  }

  /** What a moved piece becomes on row `row`. */
  function Promoted(p: Piece, row: int): Piece {
    if p.rank == Man && ((p.color == White && row == 0) || (p.color == Black && row == 7))
    then Piece(p.color, King) else p
  }

  lemma MoveAndPromoteEffect(g: Grid, s: Square, t: Square)
    requires OnBoard(s) && OnBoard(t) && s != t && At(g, s).Some?
    ensures var h := MoveAndPromote(g, s, t);
      At(h, t) == Some(Promoted(At(g, s).value, t.row)) && At(h, s).None? &&
      forall i, j :: 0 <= i < 8 && 0 <= j < 8 && Square(i, j) != s && Square(i, j) != t ==> h[i][j] == g[i][j]
  {
  }

  // ---------------------------------------------------------------------
  // Capture queries shared by the engines
  // ---------------------------------------------------------------------

  /**
   * `getCaptureMovements` / `movimentosDeCaptura`: the landing squares of the
   * captures available to `p` standing on `s`.  A Man looks two squares away
   * in each direction; a King slides outward, and after the first enemy every
   * empty square is a landing, until an own piece or a second piece blocks.
   */
  method CaptureMovements(a: array2<Option<Piece>>, ghost g: Grid, p: Piece, s: Square) returns (moves: seq<Square>)
    requires Mirrors(a, g) && OnBoard(s)
    ensures forall t :: t in moves <==> IsCaptureTarget(OwnersOf(g), p, s, t)
  {
    ghost var o := OwnersOf(g);
    moves := [];
    for j := 0 to 4
      invariant forall t :: t in moves <==> exists j', m :: 0 <= j' < j && m >= 1 && t == Ray(s, Directions[j'], m) && IsCaptureTarget(o, p, s, t)
    {
      var d := Directions[j];
      var dirMoves := DirectionCaptures(a, g, p, s, d);
      moves := moves + dirMoves;
    }
    forall t | IsCaptureTarget(o, p, s, t)
      ensures t in moves
    {
      var k :| CaptureStep(o, p, s, t, k);
      RayOnDiagonal(s, t);
      var j :| 0 <= j < 4 && Directions[j] == DirTo(s, t);
      assert t == Ray(s, Directions[j], Dist(s, t));
    }
  }

  /** The landings of captures by `p` from `s` in the single direction `d`. */
  method DirectionCaptures(a: array2<Option<Piece>>, ghost g: Grid, p: Piece, s: Square, d: Dir) returns (moves: seq<Square>)
    requires Mirrors(a, g) && OnBoard(s) && d in Directions
    ensures forall t :: t in moves <==> exists m :: m >= 1 && t == Ray(s, d, m) && IsCaptureTarget(OwnersOf(g), p, s, t)
  {
    if p.rank == King {
      moves := KingDirectionCaptures(a, g, p, s, d);
    } else {
      moves := ManDirectionCaptures(a, g, p, s, d);
    }
  }

  /** A Man's capture in direction `d`: enemy on the adjacent square, empty square behind it. */
  method ManDirectionCaptures(a: array2<Option<Piece>>, ghost g: Grid, p: Piece, s: Square, d: Dir) returns (moves: seq<Square>)
    requires Mirrors(a, g) && OnBoard(s) && d in Directions && p.rank == Man
    ensures forall t :: t in moves <==> exists m :: m >= 1 && t == Ray(s, d, m) && IsCaptureTarget(OwnersOf(g), p, s, t)
  {
    ghost var o := OwnersOf(g);
    moves := [];
    var r2, c2 := s.row + 2 * d.dr, s.col + 2 * d.dc;
    var rm, cm := s.row + d.dr, s.col + d.dc;
    assert Square(r2, c2) == Ray(s, d, 2) && Square(rm, cm) == Ray(s, d, 1);
    if InBounds(r2, c2) {
      RayDirection(s, d, 2);
      if a[rm, cm].Some? && a[rm, cm].value.color != p.color && a[r2, c2].None? {
        assert CaptureStep(o, p, s, Ray(s, d, 2), 1);
        moves := [Square(r2, c2)];
      }
    }
    forall m | m >= 1 && IsCaptureTarget(o, p, s, Ray(s, d, m))
      ensures m == 2 && Ray(s, d, 2) in moves
    {
      RayDirection(s, d, m);
    }
  }

  /**
   * A King's captures in direction `d`: slide outward; an own piece or a
   * second piece ends the scan, and every empty square after the first enemy
   * is a landing.
   */
  method KingDirectionCaptures(a: array2<Option<Piece>>, ghost g: Grid, p: Piece, s: Square, d: Dir) returns (moves: seq<Square>)
    requires Mirrors(a, g) && OnBoard(s) && d in Directions && p.rank == King
    ensures forall t :: t in moves <==> exists m :: m >= 1 && t == Ray(s, d, m) && IsCaptureTarget(OwnersOf(g), p, s, t)
  {
    ghost var o := OwnersOf(g);
    moves := [];
    var rr, cc := s.row + d.dr, s.col + d.dc;
    var i := 1;
    var enemyFound, blocked := false, false;
    ghost var k := 0;
    while !blocked && InBounds(rr, cc)
      invariant i >= 1 && Square(rr, cc) == Ray(s, d, i)
      invariant !blocked ==> KingDirScan(o, p, s, d, i, enemyFound, k, moves)
      invariant blocked ==> DirLandings(o, p, s, d, moves)
      decreases 8 - i, if blocked then 0 else 1
    {
      RayBound(s, d, i);
      blocked, enemyFound, k, moves := KingDirSquare(a, g, p, s, d, i, enemyFound, k, moves);
      if !blocked {
        rr, cc := rr + d.dr, cc + d.dc;
        i := i + 1;
      }
    }
    if !blocked {
      OffBoardFrom(o, p, s, d, i);
      LandingsDone(o, p, s, d, i, moves);
    }
  }

  /** `moves` holds exactly the landings along `d`. */
  ghost predicate DirLandings(o: Owners, p: Piece, s: Square, d: Dir, moves: seq<Square>) {
    forall t :: t in moves <==> exists m :: m >= 1 && t == Ray(s, d, m) && IsCaptureTarget(o, p, s, t)
  }

  /** The state of a King's scan before the square at distance `i`. */
  ghost predicate KingDirScan(o: Owners, p: Piece, s: Square, d: Dir, i: int, enemyFound: bool, k: int, moves: seq<Square>) {
    OnBoard(s) && d in Directions && p.rank == King && i >= 1 &&
    (!enemyFound ==> NoPieceBefore(o, s, d, i)) &&
    (enemyFound ==> OnlyEnemyBetween(o, p.color, s, d, i, k)) &&
    LandingsBefore(o, p, s, d, i, moves)
  }

  /** One square of a King's scan: a landing, the first enemy, an empty square before it, or the end. */
  method KingDirSquare(a: array2<Option<Piece>>, ghost g: Grid, p: Piece, s: Square, d: Dir, i: int,
                       enemyFound: bool, ghost k: int, moves: seq<Square>)
    returns (blocked: bool, enemyFound': bool, ghost k': int, moves': seq<Square>)
    requires Mirrors(a, g) && OnBoard(Ray(s, d, i)) && KingDirScan(OwnersOf(g), p, s, d, i, enemyFound, k, moves)
    ensures !blocked ==> KingDirScan(OwnersOf(g), p, s, d, i + 1, enemyFound', k', moves')
    ensures blocked ==> DirLandings(OwnersOf(g), p, s, d, moves')
  {
    ghost var o := OwnersOf(g);
    var sq := Ray(s, d, i);
    blocked, enemyFound', k', moves' := false, enemyFound, k, moves;
    if a[sq.row, sq.col].Some? {
      if a[sq.row, sq.col].value.color == p.color || enemyFound {
        Blocked(o, p, s, d, i, enemyFound, k);
        LandingsDone(o, p, s, d, i, moves);
        blocked := true;
      } else {
        NotLandingOccupied(o, p, s, d, i);
        LandingsSkip(o, p, s, d, i, moves);
        enemyFound', k' := true, i;
      }
    } else if enemyFound {
      LandingAfterEnemy(o, p, s, d, i, k);
      LandingsAppend(o, p, s, d, i, moves);
      moves' := moves + [sq];
    } else {
      NoLandingBeforeEnemy(o, p, s, d, i);
      LandingsSkip(o, p, s, d, i, moves);
    }
  }

  /** `moves` holds exactly the landings at distances 1 .. i-1 along `d`. */
  ghost predicate LandingsBefore(o: Owners, p: Piece, s: Square, d: Dir, i: int, moves: seq<Square>) {
    forall t :: t in moves <==> exists m :: 1 <= m < i && t == Ray(s, d, m) && IsCaptureTarget(o, p, s, t)
  }

  lemma LandingsAppend(o: Owners, p: Piece, s: Square, d: Dir, i: int, moves: seq<Square>)
    requires i >= 1 && LandingsBefore(o, p, s, d, i, moves) && IsCaptureTarget(o, p, s, Ray(s, d, i))
    ensures LandingsBefore(o, p, s, d, i + 1, moves + [Ray(s, d, i)])
  {
    forall t | t in moves + [Ray(s, d, i)]
      ensures exists m :: 1 <= m < i + 1 && t == Ray(s, d, m) && IsCaptureTarget(o, p, s, t)
    {
      if t !in moves {
        assert 1 <= i < i + 1 && t == Ray(s, d, i) && IsCaptureTarget(o, p, s, t);
      }
    }
  }

  lemma LandingsSkip(o: Owners, p: Piece, s: Square, d: Dir, i: int, moves: seq<Square>)
    requires LandingsBefore(o, p, s, d, i, moves) && !IsCaptureTarget(o, p, s, Ray(s, d, i))
    ensures LandingsBefore(o, p, s, d, i + 1, moves)
  {
    forall t | exists m :: 1 <= m < i + 1 && t == Ray(s, d, m) && IsCaptureTarget(o, p, s, t)
      ensures t in moves
    {
      var m :| 1 <= m < i + 1 && t == Ray(s, d, m) && IsCaptureTarget(o, p, s, t);
      assert m < i;
    }
  }

  lemma LandingsDone(o: Owners, p: Piece, s: Square, d: Dir, i: int, moves: seq<Square>)
    requires LandingsBefore(o, p, s, d, i, moves) && NoLandingFrom(o, p, s, d, i)
    ensures DirLandings(o, p, s, d, moves)
  {
    forall t | exists m :: m >= 1 && t == Ray(s, d, m) && IsCaptureTarget(o, p, s, t)
      ensures t in moves
    {
      var m :| m >= 1 && t == Ray(s, d, m) && IsCaptureTarget(o, p, s, t);
      assert m < i;
    }
  }

  /** None of the squares at distances 1 .. i-1 along `d` holds a piece. */
  ghost predicate NoPieceBefore(o: Owners, s: Square, d: Dir, i: int) {
    forall j :: 1 <= j < i ==> EmptyAt(o, Ray(s, d, j))
  }

  /** No square at distance `i` or more along `d` is a landing. */
  ghost predicate NoLandingFrom(o: Owners, p: Piece, s: Square, d: Dir, i: int) {
    forall m :: m >= i ==> !IsCaptureTarget(o, p, s, Ray(s, d, m))
  }

  lemma Blocked(o: Owners, p: Piece, s: Square, d: Dir, i: int, enemyFound: bool, k: int)
    requires OnBoard(s) && d in Directions && i >= 1 && OnBoard(Ray(s, d, i))
    requires o[Ray(s, d, i).row][Ray(s, d, i).col].Some?
    requires !enemyFound ==> o[Ray(s, d, i).row][Ray(s, d, i).col].value == p.color && NoPieceBefore(o, s, d, i)
    requires enemyFound ==> OnlyEnemyBetween(o, p.color, s, d, i, k)
    ensures NoLandingFrom(o, p, s, d, i)
  {
    forall m | m >= i
      ensures !IsCaptureTarget(o, p, s, Ray(s, d, m))
    {
      if IsCaptureTarget(o, p, s, Ray(s, d, m)) {
        var k' :| CaptureStep(o, p, s, Ray(s, d, m), k');
        RayDirection(s, d, m);
        assert false;
      }
    }
  }

  lemma NotLandingOccupied(o: Owners, p: Piece, s: Square, d: Dir, i: int)
    requires OnBoard(Ray(s, d, i)) && o[Ray(s, d, i).row][Ray(s, d, i).col].Some?
    ensures !IsCaptureTarget(o, p, s, Ray(s, d, i))
  {
  }

  lemma LandingAfterEnemy(o: Owners, p: Piece, s: Square, d: Dir, i: int, k: int)
    requires d in Directions && p.rank == King && OnlyEnemyBetween(o, p.color, s, d, i, k) && EmptyAt(o, Ray(s, d, i))
    ensures IsCaptureTarget(o, p, s, Ray(s, d, i))
  {
    RayDirection(s, d, i);
    assert CaptureStep(o, p, s, Ray(s, d, i), k);
  }

  lemma NoLandingBeforeEnemy(o: Owners, p: Piece, s: Square, d: Dir, i: int)
    requires d in Directions && i >= 1 && NoPieceBefore(o, s, d, i)
    ensures !IsCaptureTarget(o, p, s, Ray(s, d, i))
  {
    if IsCaptureTarget(o, p, s, Ray(s, d, i)) {
      var k :| CaptureStep(o, p, s, Ray(s, d, i), k);
      RayDirection(s, d, i);
      assert false;
    }
  }

  lemma OffBoardFrom(o: Owners, p: Piece, s: Square, d: Dir, i: int)
    requires OnBoard(s) && d in Directions && i >= 1 && !OnBoard(Ray(s, d, i))
    ensures NoLandingFrom(o, p, s, d, i)
  {
    forall m | m >= i
      ensures !OnBoard(Ray(s, d, m))
    {
      RayLeaves(s, d, i, m);
    }
  }

  /** Square `s` comes before (r, c) in row-major order. */
  predicate Before(s: Square, r: int, c: int) {
    OnBoard(s) && (s.row < r || (s.row == r && s.col < c))
  }

  /** `t` is a landing square of some capture available to `color`. */
  ghost predicate SideCaptureTarget(g: Grid, color: Color, t: Square) {
    exists s :: OwnPieceAt(g, color, s) && IsCaptureTarget(OwnersOf(g), At(g, s).value, s, t)
  }

  lemma SideCaptureTargetWitness(g: Grid, color: Color, moves: seq<Square>)
    requires forall t :: t in moves <==> SideCaptureTarget(g, color, t)
    ensures |moves| > 0 <==> SideCanCapture(g, color)
  {
    if |moves| > 0 {
      assert SideCaptureTarget(g, color, moves[0]);
    }
    if SideCanCapture(g, color) {
      var s :| OwnPieceAt(g, color, s) && CanCapture(OwnersOf(g), At(g, s).value, s);
      var t :| IsCaptureTarget(OwnersOf(g), At(g, s).value, s, t);
      assert t in moves;
    }
  }

  /** `moves` holds exactly the capture landings of the pieces of `color` before (r, c). */
  ghost predicate CapturesBefore(g: Grid, color: Color, r: int, c: int, moves: seq<Square>) {
    forall t :: t in moves <==> exists s :: Before(s, r, c) && OwnPieceAt(g, color, s) && IsCaptureTarget(OwnersOf(g), At(g, s).value, s, t)
  }

  /** The landings of the piece on `s` if it belongs to `color`, and none otherwise. */
  method SquareCaptures(a: array2<Option<Piece>>, ghost g: Grid, color: Color, s: Square) returns (here: seq<Square>)
    requires Mirrors(a, g) && OnBoard(s)
    ensures OwnPieceAt(g, color, s) ==> forall t :: t in here <==> IsCaptureTarget(OwnersOf(g), At(g, s).value, s, t)
    ensures !OwnPieceAt(g, color, s) ==> here == []
  {
    here := [];
    var x := a[s.row, s.col];
    if x.Some? && x.value.color == color {
      here := CaptureMovements(a, g, x.value, s);
    }
  }

  lemma CapturesStep(g: Grid, color: Color, r: int, c: int, moves: seq<Square>, here: seq<Square>)
    requires InBounds(r, c) && CapturesBefore(g, color, r, c, moves)
    requires OwnPieceAt(g, color, Square(r, c)) ==> forall t :: t in here <==> IsCaptureTarget(OwnersOf(g), At(g, Square(r, c)).value, Square(r, c), t)
    requires !OwnPieceAt(g, color, Square(r, c)) ==> here == []
    ensures CapturesBefore(g, color, r, c + 1, moves + here)
  {
    var o := OwnersOf(g);
    forall t | t in moves + here
      ensures exists s :: Before(s, r, c + 1) && OwnPieceAt(g, color, s) && IsCaptureTarget(o, At(g, s).value, s, t)
    {
      if t in here {
        assert Before(Square(r, c), r, c + 1) && OwnPieceAt(g, color, Square(r, c));
      } else {
        var s :| Before(s, r, c) && OwnPieceAt(g, color, s) && IsCaptureTarget(o, At(g, s).value, s, t);
        assert Before(s, r, c + 1);
      }
    }
    forall t | exists s :: Before(s, r, c + 1) && OwnPieceAt(g, color, s) && IsCaptureTarget(o, At(g, s).value, s, t)
      ensures t in moves + here
    {
      var s :| Before(s, r, c + 1) && OwnPieceAt(g, color, s) && IsCaptureTarget(o, At(g, s).value, s, t);
      if s != Square(r, c) {
        assert Before(s, r, c);
      }
    }
  }

  lemma CapturesNextRow(g: Grid, color: Color, r: int, moves: seq<Square>)
    requires CapturesBefore(g, color, r, 8, moves)
    ensures CapturesBefore(g, color, r + 1, 0, moves)
  {
    assert forall s :: Before(s, r, 8) <==> Before(s, r + 1, 0);
  }

  lemma CapturesAll(g: Grid, color: Color, moves: seq<Square>)
    requires CapturesBefore(g, color, 8, 0, moves)
    ensures forall t :: t in moves <==> SideCaptureTarget(g, color, t)
  {
    assert forall s :: OnBoard(s) <==> Before(s, 8, 0);
  }

  /**
   * `findAllCaptures` / `encontrarTodasCapturas`: the landing squares of all
   * captures available to the pieces of `color`, scanned row by row.
   */
  method AllCaptures(a: array2<Option<Piece>>, ghost g: Grid, color: Color) returns (moves: seq<Square>)
    requires Mirrors(a, g)
    ensures forall t :: t in moves <==> SideCaptureTarget(g, color, t)
    ensures |moves| > 0 <==> SideCanCapture(g, color)
  {
    ghost var o := OwnersOf(g);
    moves := [];
    for r := 0 to 8
      invariant CapturesBefore(g, color, r, 0, moves)
    {
      for c := 0 to 8
        invariant CapturesBefore(g, color, r, c, moves)
      {
        var here := SquareCaptures(a, g, color, Square(r, c));
        CapturesStep(g, color, r, c, moves, here);
        moves := moves + here;
      }
      CapturesNextRow(g, color, r, moves);
    }
    CapturesAll(g, color, moves);
    SideCaptureTargetWitness(g, color, moves);
  }

  // ---------------------------------------------------------------------
  // Applying a capture
  // ---------------------------------------------------------------------

  /**
   * The board after `p` on `s` jumps to `t`: the enemy passed over is
   * removed, the piece moves and is promoted if it lands on its last row.
   */
  ghost function JumpResult(g: Grid, s: Square, t: Square): Grid
    requires OnBoard(s) && OnBoard(t) && At(g, s).Some?
    requires exists k :: CaptureStep(OwnersOf(g), At(g, s).value, s, t, k)
  {
    var k :| CaptureStep(OwnersOf(g), At(g, s).value, s, t, k);
    MoveAndPromote(SetCell(g, Captured(s, t, k), None), s, t)
  }

  /** The jump result named by the captured enemy's distance. */
  lemma JumpResultAt(g: Grid, s: Square, t: Square, k: int)
    requires OnBoard(s) && OnBoard(t) && At(g, s).Some?
    requires CaptureStep(OwnersOf(g), At(g, s).value, s, t, k)
    ensures JumpResult(g, s, t) == MoveAndPromote(SetCell(g, Captured(s, t, k), None), s, t)
  {
    var k' :| CaptureStep(OwnersOf(g), At(g, s).value, s, t, k');
    CaptureStepUnique(OwnersOf(g), At(g, s).value, s, t, k, k');
  }

  /** After a jump the capturer stands on the landing square. */
  lemma JumpLands(g: Grid, s: Square, t: Square)
    requires OnBoard(s) && OnBoard(t) && At(g, s).Some?
    requires exists k :: CaptureStep(OwnersOf(g), At(g, s).value, s, t, k)
    ensures At(JumpResult(g, s, t), t) == Some(Promoted(At(g, s).value, t.row))
  {
    var k :| CaptureStep(OwnersOf(g), At(g, s).value, s, t, k);
    JumpEffect(g, s, t, k);
  }

  /**
   * A jump removes exactly one piece, an enemy strictly between origin and
   * destination; the origin becomes empty and the destination holds the
   * (possibly promoted) capturer; every other square is unchanged.
   */
  lemma JumpEffect(g: Grid, s: Square, t: Square, k: int)
    requires OnBoard(s) && OnBoard(t) && At(g, s).Some?
    requires CaptureStep(OwnersOf(g), At(g, s).value, s, t, k)
    ensures var h := JumpResult(g, s, t); var e := Captured(s, t, k);
      OnBoard(e) && e != s && e != t &&
      At(g, e).Some? && At(g, e).value.color != At(g, s).value.color &&
      At(h, e).None? && At(h, s).None? && At(h, t) == Some(Promoted(At(g, s).value, t.row)) &&
      forall i, j :: 0 <= i < 8 && 0 <= j < 8 && Square(i, j) !in {s, t, e} ==> h[i][j] == g[i][j]
  {
    JumpResultAt(g, s, t, k);
    RayOnDiagonal(s, t);
    var e := Captured(s, t, k);
    assert e != t by {
      assert Dist(s, e) == k;
    }
  }

  // ---------------------------------------------------------------------
  // Simple moves and the survey behind the game-over tests
  // ---------------------------------------------------------------------

  /**
   * `t` is a one-square move for `p` on `s` into an empty square: any
   * diagonal neighbour for a King, a forward one for a Man.
   */
  predicate SimpleStepTarget(o: Owners, p: Piece, s: Square, t: Square) {
    Diagonal(s, t) && Dist(s, t) == 1 &&
    (p.rank == Man ==> t.row - s.row == Forward(p.color)) &&
    EmptyAt(o, t)
  }

  ghost predicate HasSimpleStep(o: Owners, p: Piece, s: Square) {
    exists t :: SimpleStepTarget(o, p, s, t)
  }

  lemma SimpleStepOnRay(o: Owners, p: Piece, s: Square, t: Square)
    requires SimpleStepTarget(o, p, s, t)
    ensures t == Ray(s, DirTo(s, t), 1) && DirTo(s, t) in Directions
  {
    RayOnDiagonal(s, t);
  }

  /**
   * `hasSimpleMove`: a Man looks at its two forward neighbours, a King at its
   * four neighbours, for an empty square on the board.
   */
  method HasSimpleMove(a: array2<Option<Piece>>, ghost g: Grid, p: Piece, s: Square) returns (b: bool)
    requires Mirrors(a, g) && OnBoard(s)
    ensures b <==> HasSimpleStep(OwnersOf(g), p, s)
  {
    ghost var o := OwnersOf(g);
    var moves := SimpleMoves(a, g, p, s);
    b := |moves| > 0;
    if b {
      assert SimpleStepTarget(o, p, s, moves[0]);
    }
  }

  /**
   * `movimentosSimples`: the one-square moves of `p` on `s`: the forward
   * neighbours for a Man, every neighbour for a King, that are empty.
   */
  method SimpleMoves(a: array2<Option<Piece>>, ghost g: Grid, p: Piece, s: Square) returns (moves: seq<Square>)
    requires Mirrors(a, g) && OnBoard(s)
    ensures forall t :: t in moves <==> SimpleStepTarget(OwnersOf(g), p, s, t)
  {
    ghost var o := OwnersOf(g);
    moves := [];
    for j := 0 to 4
      invariant forall t :: t in moves <==> exists j' :: 0 <= j' < j && t == Ray(s, Directions[j'], 1) && SimpleStepTarget(o, p, s, t)
    {
      var d := Directions[j];
      if p.rank == King || d.dr == Forward(p.color) {
        var r2, c2 := s.row + d.dr, s.col + d.dc;
        RayDirection(s, d, 1);
        if InBounds(r2, c2) && a[r2, c2].None? {
          moves := moves + [Square(r2, c2)];
        }
      }
    }
    forall t | SimpleStepTarget(o, p, s, t)
      ensures t in moves
    {
      SimpleStepOnRay(o, p, s, t);
      var j :| 0 <= j < 4 && Directions[j] == DirTo(s, t);
      assert t == Ray(s, Directions[j], 1);
    }
  }

  /** Some piece of `color` is on the board. */
  ghost predicate HasPiece(g: Grid, color: Color) {
    exists s :: OwnPieceAt(g, color, s)
  }

  /** Some piece of `color` has a capture or a one-square move. */
  ghost predicate HasMoveFor(g: Grid, color: Color) {
    exists s :: OwnPieceAt(g, color, s) && PieceCanMove(g, s)
  }

  ghost predicate PieceCanMove(g: Grid, s: Square)
    requires OnBoard(s) && At(g, s).Some?
  {
    CanCapture(OwnersOf(g), At(g, s).value, s) || HasSimpleStep(OwnersOf(g), At(g, s).value, s)
  }

  /** Squares before (r, c) in row-major order holding a piece of `color`. */
  ghost predicate PieceBefore(g: Grid, color: Color, r: int, c: int) {
    exists s :: Before(s, r, c) && OwnPieceAt(g, color, s)
  }

  ghost predicate MovableBefore(g: Grid, color: Color, r: int, c: int) {
    exists s :: Before(s, r, c) && OwnPieceAt(g, color, s) && PieceCanMove(g, s)
  }

  /**
   * The scan shared by `checkGameOver` and `verificarVitoria`: whether each
   * colour has a piece, and whether it has a piece with a capture or a
   * one-square move.
   */
  method SurveySides(a: array2<Option<Piece>>, ghost g: Grid) returns (hasWhite: bool, hasBlack: bool, whiteMove: bool, blackMove: bool)
    requires Mirrors(a, g)
    ensures hasWhite <==> HasPiece(g, White)
    ensures hasBlack <==> HasPiece(g, Black)
    ensures whiteMove <==> HasMoveFor(g, White)
    ensures blackMove <==> HasMoveFor(g, Black)
  {
    hasWhite, hasBlack, whiteMove, blackMove := false, false, false, false;
    for r := 0 to 8
      invariant Surveyed(g, r, 0, hasWhite, hasBlack, whiteMove, blackMove)
    {
      for c := 0 to 8
        invariant Surveyed(g, r, c, hasWhite, hasBlack, whiteMove, blackMove)
      {
        hasWhite, hasBlack, whiteMove, blackMove := SurveySquare(a, g, r, c, hasWhite, hasBlack, whiteMove, blackMove);
      }
      SurveyNextRow(g, r, hasWhite, hasBlack, whiteMove, blackMove);
    }
    SurveyAll(g, hasWhite, hasBlack, whiteMove, blackMove);
  }

  /** The four flags of the scan describe the squares before (r, c). */
  ghost predicate Surveyed(g: Grid, r: int, c: int, hasWhite: bool, hasBlack: bool, whiteMove: bool, blackMove: bool) {
    (hasWhite <==> PieceBefore(g, White, r, c)) &&
    (hasBlack <==> PieceBefore(g, Black, r, c)) &&
    (whiteMove <==> MovableBefore(g, White, r, c)) &&
    (blackMove <==> MovableBefore(g, Black, r, c))
  }

  /** One square of the scan: a piece sets its colour's flag, and its movement flag when it can move. */
  method SurveySquare(a: array2<Option<Piece>>, ghost g: Grid, r: int, c: int, hasWhite: bool, hasBlack: bool, whiteMove: bool, blackMove: bool)
    returns (hasWhite': bool, hasBlack': bool, whiteMove': bool, blackMove': bool)
    requires Mirrors(a, g) && InBounds(r, c) && Surveyed(g, r, c, hasWhite, hasBlack, whiteMove, blackMove)
    ensures Surveyed(g, r, c + 1, hasWhite', hasBlack', whiteMove', blackMove')
  {
    hasWhite', hasBlack', whiteMove', blackMove' := hasWhite, hasBlack, whiteMove, blackMove;
    var x := a[r, c];
    if x.Some? {
      var movable := PieceMovable(a, g, x.value, Square(r, c));
      if x.value.color == White {
        hasWhite' := true;
        if movable {
          whiteMove' := true;
        }
      } else {
        hasBlack' := true;
        if movable {
          blackMove' := true;
        }
      }
    }
    SurveyStep(g, r, c);
  }

  lemma SurveyNextRow(g: Grid, r: int, hasWhite: bool, hasBlack: bool, whiteMove: bool, blackMove: bool)
    requires Surveyed(g, r, 8, hasWhite, hasBlack, whiteMove, blackMove)
    ensures Surveyed(g, r + 1, 0, hasWhite, hasBlack, whiteMove, blackMove)
  {
    assert forall s :: Before(s, r, 8) <==> Before(s, r + 1, 0);
  }

  lemma SurveyAll(g: Grid, hasWhite: bool, hasBlack: bool, whiteMove: bool, blackMove: bool)
    requires Surveyed(g, 8, 0, hasWhite, hasBlack, whiteMove, blackMove)
    ensures hasWhite <==> HasPiece(g, White)
    ensures hasBlack <==> HasPiece(g, Black)
    ensures whiteMove <==> HasMoveFor(g, White)
    ensures blackMove <==> HasMoveFor(g, Black)
  {
    assert forall s :: OnBoard(s) ==> Before(s, 8, 0);
  }

  /** A piece has at least one capture or one simple move (`!captures.isEmpty() || hasSimpleMove`). */
  method PieceMovable(a: array2<Option<Piece>>, ghost g: Grid, p: Piece, s: Square) returns (movable: bool)
    requires Mirrors(a, g) && OnBoard(s) && At(g, s) == Some(p)
    ensures movable <==> PieceCanMove(g, s)
  {
    var captures := CaptureMovements(a, g, p, s);
    var simple := HasSimpleMove(a, g, p, s);
    movable := |captures| > 0 || simple;
    if |captures| > 0 {
      assert IsCaptureTarget(OwnersOf(g), p, s, captures[0]);
    }
  }

  /** Advancing the row-major scan by one square. */
  lemma SurveyStep(g: Grid, r: int, c: int)
    requires InBounds(r, c)
    ensures forall color :: PieceBefore(g, color, r, c + 1) <==> PieceBefore(g, color, r, c) || OwnPieceAt(g, color, Square(r, c))
    ensures forall color :: MovableBefore(g, color, r, c + 1) <==>
      MovableBefore(g, color, r, c) || (OwnPieceAt(g, color, Square(r, c)) && PieceCanMove(g, Square(r, c)))
  {
    forall color ensures PieceBefore(g, color, r, c + 1) ==> PieceBefore(g, color, r, c) || OwnPieceAt(g, color, Square(r, c)) {
      if PieceBefore(g, color, r, c + 1) {
        var s :| Before(s, r, c + 1) && OwnPieceAt(g, color, s);
        if s != Square(r, c) {
          assert Before(s, r, c);
        }
      }
    }
    forall color ensures MovableBefore(g, color, r, c + 1) ==>
      MovableBefore(g, color, r, c) || (OwnPieceAt(g, color, Square(r, c)) && PieceCanMove(g, Square(r, c))) {
      if MovableBefore(g, color, r, c + 1) {
        var s :| Before(s, r, c + 1) && OwnPieceAt(g, color, s) && PieceCanMove(g, s);
        if s != Square(r, c) {
          assert Before(s, r, c);
        }
      }
    }
    forall color ensures OwnPieceAt(g, color, Square(r, c)) ==> PieceBefore(g, color, r, c + 1) {
      if OwnPieceAt(g, color, Square(r, c)) {
        assert Before(Square(r, c), r, c + 1);
      }
    }
    forall color ensures OwnPieceAt(g, color, Square(r, c)) && PieceCanMove(g, Square(r, c)) ==> MovableBefore(g, color, r, c + 1) {
      if OwnPieceAt(g, color, Square(r, c)) && PieceCanMove(g, Square(r, c)) {
        assert Before(Square(r, c), r, c + 1);
      }
    }
  }

  /** The linear search `for (int[] move : moves) if (same square) found = true`. */
  method ListContains(moves: seq<Square>, t: Square) returns (found: bool)
    ensures found <==> t in moves
  {
    found := false;
    var i := 0;
    while i < |moves| && !found
      invariant 0 <= i <= |moves|
      invariant found <==> t in moves[..i]
    {
      if moves[i] == t {
        found := true;
      }
      i := i + 1;
    }
    assert !found ==> moves[..i] == moves;
  }

  /**
   * `performSimpleMove` / `realizarMovimento` on the array: copy the origin
   * to the destination, clear the origin, promote a Man on its last row.
   */
  method MovePiece(a: array2<Option<Piece>>, ghost g: Grid, s: Square, t: Square)
    requires Mirrors(a, g) && OnBoard(s) && OnBoard(t)
    modifies a
    ensures Mirrors(a, MoveAndPromote(g, s, t))
  {
    a[t.row, t.col] := a[s.row, s.col];
    a[s.row, s.col] := None;
    ghost var h := SetCell(SetCell(g, t, At(g, s)), s, None);
    if a[t.row, t.col] == Some(Piece(White, Man)) && t.row == 0 {
      a[t.row, t.col] := Some(Piece(White, King));
    } else if a[t.row, t.col] == Some(Piece(Black, Man)) && t.row == 7 {
      a[t.row, t.col] := Some(Piece(Black, King));
    }
    assert Mirrors(a, Promote(h, t));
  }

  // ---------------------------------------------------------------------
  // Performing a capture
  // ---------------------------------------------------------------------

  /** The scan of `performCapture` / `realizarCaptura` that finds the enemy to remove. */
  method LocateCapture(a: array2<Option<Piece>>, ghost g: Grid, s: Square, t: Square) returns (captured: bool, enemy: Square, ghost k: int)
    requires Mirrors(a, g) && OnBoard(s) && OnBoard(t) && Diagonal(s, t) && At(g, s).Some?
    ensures captured <==> exists k' :: CaptureStep(OwnersOf(g), At(g, s).value, s, t, k')
    ensures captured ==> CaptureStep(OwnersOf(g), At(g, s).value, s, t, k) && enemy == Captured(s, t, k)
  {
    var piece := a[s.row, s.col].value;
    if piece.rank == King {
      captured, enemy, k := LocateKingCapture(a, g, piece, s, t);
      ghost var o := OwnersOf(g);
      forall k' | CaptureStep(o, piece, s, t, k')
        ensures OnlyEnemyBetween(o, piece.color, s, DirTo(s, t), Dist(s, t), k')
      {
      }
      if captured {
        assert CaptureStep(o, piece, s, t, k);
      }
    } else {
      ghost var o := OwnersOf(g);
      var d := Dir(Sign(t.row - s.row), Sign(t.col - s.col));
      var n := Abs(t.row - s.row);
      RayOnDiagonal(s, t);
      var rm, cm := (s.row + t.row) / 2, (s.col + t.col) / 2;
      captured, enemy, k := false, Square(-1, -1), 0;
      if n == 2 {
        assert Square(rm, cm) == Ray(s, d, 1);
      }
      if n == 2 && a[rm, cm].Some? && a[rm, cm].value.color != piece.color {
        captured, enemy, k := true, Square(rm, cm), 1;
        assert CaptureStep(o, piece, s, t, k);
      }
    }
  }

  /** A King's scan: exactly one piece, an enemy, strictly between. */
  method LocateKingCapture(a: array2<Option<Piece>>, ghost g: Grid, piece: Piece, s: Square, t: Square) returns (captured: bool, enemy: Square, ghost k: int)
    requires Mirrors(a, g) && OnBoard(s) && OnBoard(t) && Diagonal(s, t) && piece.rank == King
    ensures captured <==> exists k' :: OnlyEnemyBetween(OwnersOf(g), piece.color, s, DirTo(s, t), Dist(s, t), k')
    ensures captured ==> OnlyEnemyBetween(OwnersOf(g), piece.color, s, DirTo(s, t), Dist(s, t), k) && enemy == Captured(s, t, k)
  {
    ghost var o := OwnersOf(g);
    var d := Dir(Sign(t.row - s.row), Sign(t.col - s.col));
    var n := Abs(t.row - s.row);
    RayOnDiagonal(s, t);
    enemy := Square(-1, -1);
    captured := false;
    k := 0;
    for i := 1 to n
      invariant BetweenScan(o, piece.color, s, d, i, captured, k, enemy)
    {
      var stop;
      stop, captured, enemy, k := BetweenSquare(a, g, piece, s, d, n, i, captured, enemy, k);
      if stop {
        captured := false;
        return;
      }
    }
    if !captured {
      NoneBetween(o, piece.color, s, d, n);
    }
  }

  /** One square strictly between: the first enemy is remembered; an own piece or a second piece fails. */
  method BetweenSquare(a: array2<Option<Piece>>, ghost g: Grid, piece: Piece, s: Square, d: Dir, n: int, i: int, captured: bool, enemy: Square, ghost k: int)
    returns (stop: bool, captured': bool, enemy': Square, ghost k': int)
    requires Mirrors(a, g) && OnBoard(s) && d in Directions && 1 <= i < n && OnBoard(Ray(s, d, n))
    requires BetweenScan(OwnersOf(g), piece.color, s, d, i, captured, k, enemy)
    ensures stop ==> forall j :: !OnlyEnemyBetween(OwnersOf(g), piece.color, s, d, n, j)
    ensures !stop ==> BetweenScan(OwnersOf(g), piece.color, s, d, i + 1, captured', k', enemy')
  {
    ghost var o := OwnersOf(g);
    stop, captured', enemy', k' := false, captured, enemy, k;
    var sq := Ray(s, d, i);
    RayBetween(s, d, i, n);
    if a[sq.row, sq.col].Some? {
      if a[sq.row, sq.col].value.color != piece.color {
        if !captured {
          captured', enemy', k' := true, sq, i;
        } else {
          BetweenBlocked(o, piece.color, s, d, n, i, true, k);
          stop := true;
        }
      } else {
        BetweenBlocked(o, piece.color, s, d, n, i, captured, k);
        stop := true;
      }
    }
  }

  /** `isPathClear` / `caminhoLivre`: the squares strictly between are empty. */
  method PathIsClear(a: array2<Option<Piece>>, ghost g: Grid, s: Square, t: Square) returns (clear: bool)
    requires Mirrors(a, g) && OnBoard(s) && OnBoard(t) && Diagonal(s, t)
    ensures clear <==> PathClear(OwnersOf(g), s, t)
  {
    ghost var o := OwnersOf(g);
    var d := Dir(Sign(t.row - s.row), Sign(t.col - s.col));
    RayOnDiagonal(s, t);
    for i := 1 to Abs(t.row - s.row)
      invariant NoPieceBefore(o, s, d, i)
    {
      RayBetween(s, d, i, Dist(s, t));
      var sq := Ray(s, d, i);
      if a[sq.row, sq.col].Some? {
        return false;
      }
    }
    return true;
  }

  /** The state of a King's scan of the squares strictly between, before distance `i`. */
  ghost predicate BetweenScan(o: Owners, color: Color, s: Square, d: Dir, i: int, captured: bool, k: int, enemy: Square) {
    (!captured ==> NoPieceBefore(o, s, d, i)) &&
    (captured ==> OnlyEnemyBetween(o, color, s, d, i, k) && enemy == Ray(s, d, k))
  }

  lemma NoneBetween(o: Owners, color: Color, s: Square, d: Dir, n: int)
    requires NoPieceBefore(o, s, d, n)
    ensures forall j :: !OnlyEnemyBetween(o, color, s, d, n, j)
  {
  }

  lemma BetweenBlocked(o: Owners, color: Color, s: Square, d: Dir, n: int, i: int, enemyFound: bool, k: int)
    requires 1 <= i < n && OnBoard(Ray(s, d, i)) && o[Ray(s, d, i).row][Ray(s, d, i).col].Some?
    requires !enemyFound ==> o[Ray(s, d, i).row][Ray(s, d, i).col].value == color && NoPieceBefore(o, s, d, i)
    requires enemyFound ==> OnlyEnemyBetween(o, color, s, d, i, k)
    ensures forall k' :: !OnlyEnemyBetween(o, color, s, d, n, k')
  {
    forall k' | OnlyEnemyBetween(o, color, s, d, n, k')
      ensures false
    {
    }
  }
}

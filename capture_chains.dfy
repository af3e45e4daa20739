/**
 * The capture-chain search of the console engine, as value-level functions
 * on the colour view of the board.
 *
 * `findCaptureSequencesFrom` runs a depth-first search: from the current
 * square it tries the four directions in order; every capture found is
 * applied (origin emptied, mover placed on the landing, enemy removed), the
 * search recurses with the landing appended to the path, and the capture is
 * undone.  A path that cannot be extended is reported if it holds at least
 * one capture.  The mover keeps its rank for the whole search.
 */
module CaptureChains {
  import opened JavaInt
  import opened Board

  /** The squares holding an enemy of `color`. */
  ghost function Enemies(o: Owners, color: Color): set<Square> {
    set r, c | 0 <= r < 8 && 0 <= c < 8 && o[r][c].Some? && o[r][c].value != color :: Square(r, c)
  }

  /** A capture applied to the colour view: origin emptied, mover on the landing, enemy removed. */
  function ApplyJump(o: Owners, color: Color, s: Square, t: Square, e: Square): Owners
    requires OnBoard(s) && OnBoard(t) && OnBoard(e)
  {
    SetCell(SetCell(SetCell(o, s, None), t, Some(color)), e, None)
  }

  /** Every capture removes one enemy, and adds none: the search terminates. */
  lemma EnemiesShrink(o: Owners, color: Color, s: Square, t: Square, e: Square)
    requires OnBoard(s) && OnBoard(t) && EnemyAt(o, color, e) && e != t
    ensures Enemies(ApplyJump(o, color, s, t, e), color) < Enemies(o, color)
    ensures |Enemies(ApplyJump(o, color, s, t, e), color)| < |Enemies(o, color)|
  {
    var o' := ApplyJump(o, color, s, t, e);
    var before, after := Enemies(o, color), Enemies(o', color);
    assert e in before && e !in after;
    assert after <= before - {e};
    SubsetCard(after, before - {e});
  }

  lemma SubsetCard<T>(a: set<T>, b: set<T>)
    requires a <= b
    ensures |a| <= |b|
  {
    if a != {} {
      var x :| x in a;
      SubsetCard(a - {x}, b - {x});
    }
  }

  /** The colour view after the capture from `s` landing on `t`. */
  ghost function AfterJump(o: Owners, p: Piece, s: Square, t: Square): Owners
    requires OnBoard(s) && IsCaptureTarget(o, p, s, t)
  {
    var k :| CaptureStep(o, p, s, t, k);
    ApplyJump(o, p.color, s, t, Captured(s, t, k))
  }

  lemma AfterJumpAt(o: Owners, p: Piece, s: Square, t: Square, k: int)
    requires OnBoard(s) && IsCaptureTarget(o, p, s, t) && CaptureStep(o, p, s, t, k)
    ensures AfterJump(o, p, s, t) == ApplyJump(o, p.color, s, t, Captured(s, t, k))
  {
    var k' :| CaptureStep(o, p, s, t, k');
    CaptureStepUnique(o, p, s, t, k, k');
  }

  /**
   * `q` is a maximal capture chain for `p` starting on `q[0]`: each step
   * is a capture on the board left by the previous steps, and no capture is
   * possible from the last square.
   */
  ghost predicate IsMaximalChain(o: Owners, p: Piece, q: seq<Square>)
    decreases |q|
  {
    |q| >= 1 && OnBoard(q[0]) &&
    if |q| == 1 then !CanCapture(o, p, q[0])
    else IsCaptureTarget(o, p, q[0], q[1]) && IsMaximalChain(AfterJump(o, p, q[0], q[1]), p, q[1..])
  }

  // ---------------------------------------------------------------------
  // The search, in the order the code visits the board
  // ---------------------------------------------------------------------

  /** `rec(r, c, p, path)`: the chains reported from square `s`. */
  ghost function Chains(o: Owners, p: Piece, s: Square, path: seq<Square>): seq<seq<Square>>
    requires OnBoard(s)
    decreases |Enemies(o, p.color)|, 2, 0
  {
    DirChains(o, p, s, path, 0) + (if !CanCapture(o, p, s) && |path| > 1 then [path] else [])
  }

  /** The chains found in directions `j` .. 3. */
  ghost function DirChains(o: Owners, p: Piece, s: Square, path: seq<Square>, j: nat): seq<seq<Square>>
    requires OnBoard(s) && j <= 4
    decreases |Enemies(o, p.color)|, 1, 4 - j
  {
    if j == 4 then []
    else
      var d := Directions[j];
      (if p.rank == Man then ManChains(o, p, s, path, d) else KingScan(o, p, s, path, d, 1, 0)) +
      DirChains(o, p, s, path, j + 1)
  }

  /** A Man's jump in direction `d`, and the chains that continue it. */
  ghost function ManChains(o: Owners, p: Piece, s: Square, path: seq<Square>, d: Dir): seq<seq<Square>>
    requires OnBoard(s) && d in Directions
    decreases |Enemies(o, p.color)|, 0, 0
  {
    var t, m := Ray(s, d, 2), Ray(s, d, 1);
    if EmptyAt(o, t) && EnemyAt(o, p.color, m) then
      EnemiesShrink(o, p.color, s, t, m);
      Chains(ApplyJump(o, p.color, s, t, m), p, t, path + [t])
    else []
  }

  /**
   * A King's scan in direction `d` from distance `step` on; `enemy` is the
   * distance of the enemy passed so far, 0 if none.  Every empty square after
   * the enemy is a landing; an own piece or a second piece ends the scan.
   */
  ghost function KingScan(o: Owners, p: Piece, s: Square, path: seq<Square>, d: Dir, step: int, enemy: int): seq<seq<Square>>
    requires OnBoard(s) && d in Directions && 0 <= enemy < step
    requires enemy > 0 ==> EnemyAt(o, p.color, Ray(s, d, enemy))
    decreases |Enemies(o, p.color)|, 0, 8 - step
  {
    var n := Ray(s, d, step);
    if !OnBoard(n) then []
    else if o[n.row][n.col].None? then
      (if enemy > 0 then
         EnemiesShrink(o, p.color, s, n, Ray(s, d, enemy));
         Chains(ApplyJump(o, p.color, s, n, Ray(s, d, enemy)), p, n, path + [n])
       else []) +
      KingScan(o, p, s, path, d, step + 1, enemy)
    else if o[n.row][n.col].value == p.color || enemy > 0 then []
    else KingScan(o, p, s, path, d, step + 1, step)
  }

  // ---------------------------------------------------------------------
  // What the search reports
  // ---------------------------------------------------------------------

  /** `q` continues `path` with a capture from `s` and then a maximal chain. */
  ghost predicate ExtendsBy(o: Owners, p: Piece, s: Square, path: seq<Square>, q: seq<Square>) {
    OnBoard(s) && |q| > |path| && q[..|path|] == path && IsCaptureTarget(o, p, s, q[|path|]) &&
    IsMaximalChain(AfterJump(o, p, s, q[|path|]), p, q[|path|..])
  }

  /** The King scan's state: before the enemy every square was empty; after it only the enemy was occupied. */
  ghost predicate ScanState(o: Owners, p: Piece, s: Square, d: Dir, step: int, enemy: int) {
    0 <= enemy < step &&
    (enemy == 0 ==> NoPieceBefore(o, s, d, step)) &&
    (enemy > 0 ==> OnlyEnemyBetween(o, p.color, s, d, step, enemy))
  }

  /** Every reported chain starts with the path so far, is at least two squares long, and is maximal. */
  lemma {:induction false} ChainsSound(o: Owners, p: Piece, s: Square, path: seq<Square>)
    requires OnBoard(s) && |path| >= 1 && path[|path| - 1] == s
    ensures forall q :: q in Chains(o, p, s, path) ==>
      |q| >= 2 && |q| >= |path| && q[..|path|] == path && IsMaximalChain(o, p, q[|path| - 1..])
    decreases |Enemies(o, p.color)|, 2, 0
  {
    DirChainsSound(o, p, s, path, 0);
    forall q | q in Chains(o, p, s, path)
      ensures |q| >= 2 && |q| >= |path| && q[..|path|] == path && IsMaximalChain(o, p, q[|path| - 1..])
    {
      if q in DirChains(o, p, s, path, 0) {
        assert ExtendsBy(o, p, s, path, q);
        var tail := q[|path| - 1..];
        assert tail[0] == s && tail[1] == q[|path|] && tail[1..] == q[|path|..];
      } else {
        assert q == path;
        assert q[|path| - 1..] == [s];
      }
    }
  }

  lemma {:induction false} DirChainsSound(o: Owners, p: Piece, s: Square, path: seq<Square>, j: nat)
    requires OnBoard(s) && j <= 4 && |path| >= 1 && path[|path| - 1] == s
    ensures forall q :: q in DirChains(o, p, s, path, j) ==> ExtendsBy(o, p, s, path, q)
    decreases |Enemies(o, p.color)|, 1, 4 - j
  {
    if j < 4 {
      var d := Directions[j];
      if p.rank == Man {
        ManChainsSound(o, p, s, path, d);
      } else {
        KingScanSound(o, p, s, path, d, 1, 0);
      }
      DirChainsSound(o, p, s, path, j + 1);
    }
  }

  lemma {:induction false} ManChainsSound(o: Owners, p: Piece, s: Square, path: seq<Square>, d: Dir)
    requires OnBoard(s) && d in Directions && |path| >= 1 && path[|path| - 1] == s && p.rank == Man
    ensures forall q :: q in ManChains(o, p, s, path, d) ==> ExtendsBy(o, p, s, path, q)
    decreases |Enemies(o, p.color)|, 0, 1
  {
    var t, m := Ray(s, d, 2), Ray(s, d, 1);
    if EmptyAt(o, t) && EnemyAt(o, p.color, m) {
      RayDirection(s, d, 2);
      assert CaptureStep(o, p, s, t, 1);
      JumpSound(o, p, s, path, t, 1);
    }
  }

  /** The chains continuing one capture from `s` extend the path by that capture. */
  lemma {:induction false} JumpSound(o: Owners, p: Piece, s: Square, path: seq<Square>, t: Square, k: int)
    requires OnBoard(s) && |path| >= 1 && path[|path| - 1] == s
    requires EmptyAt(o, t) && CaptureStep(o, p, s, t, k)
    ensures forall q :: q in Chains(ApplyJump(o, p.color, s, t, Captured(s, t, k)), p, t, path + [t]) ==>
      ExtendsBy(o, p, s, path, q)
    decreases |Enemies(o, p.color)|, 0, 0
  {
    var o' := ApplyJump(o, p.color, s, t, Captured(s, t, k));
    EnemiesShrink(o, p.color, s, t, Captured(s, t, k));
    AfterJumpAt(o, p, s, t, k);
    ChainsSound(o', p, t, path + [t]);
    forall q | q in Chains(o', p, t, path + [t])
      ensures ExtendsBy(o, p, s, path, q)
    {
      assert q[..|path|] == path && q[|path|] == t by {
        assert q[..|path| + 1] == path + [t];
        assert q[..|path|] == (path + [t])[..|path|];
      }
    }
  }

  lemma {:induction false} KingScanSound(o: Owners, p: Piece, s: Square, path: seq<Square>, d: Dir, step: int, enemy: int)
    requires OnBoard(s) && d in Directions && |path| >= 1 && path[|path| - 1] == s
    requires p.rank == King && ScanState(o, p, s, d, step, enemy)
    requires enemy > 0 ==> EnemyAt(o, p.color, Ray(s, d, enemy))
    ensures forall q :: q in KingScan(o, p, s, path, d, step, enemy) ==> ExtendsBy(o, p, s, path, q)
    decreases |Enemies(o, p.color)|, 0, 9 - step
  {
    var n := Ray(s, d, step);
    if OnBoard(n) {
      if o[n.row][n.col].None? {
        KingScanSound(o, p, s, path, d, step + 1, enemy);
        if enemy > 0 {
          RayDirection(s, d, step);
          assert CaptureStep(o, p, s, n, enemy);
          JumpSound(o, p, s, path, n, enemy);
        }
      } else if o[n.row][n.col].value != p.color && enemy == 0 {
        KingScanSound(o, p, s, path, d, step + 1, step);
      }
    }
  }

  /** A path already holding a capture always yields at least one chain. */
  lemma {:induction false} ChainsNonEmpty(o: Owners, p: Piece, s: Square, path: seq<Square>)
    requires OnBoard(s) && |path| > 1
    ensures Chains(o, p, s, path) != []
    decreases |Enemies(o, p.color)|, 2, 0
  {
    if CanCapture(o, p, s) {
      var t :| IsCaptureTarget(o, p, s, t);
      var k :| CaptureStep(o, p, s, t, k);
      RayOnDiagonal(s, t);
      var d := DirTo(s, t);
      var j :| 0 <= j < 4 && Directions[j] == d;
      if p.rank == Man {
        assert k == 1 && t == Ray(s, d, 2);
        ManJumpFound(o, p, s, path, d);
      } else {
        KingScanReaches(o, p, s, path, d, 1, 0, Dist(s, t));
      }
      DirChainsHas(o, p, s, path, 0, j);
    }
  }

  /** A direction that yields chains makes the whole search yield chains. */
  lemma {:induction false} DirChainsHas(o: Owners, p: Piece, s: Square, path: seq<Square>, j0: nat, j: nat)
    requires OnBoard(s) && j0 <= j < 4
    requires (if p.rank == Man then ManChains(o, p, s, path, Directions[j]) else KingScan(o, p, s, path, Directions[j], 1, 0)) != []
    ensures DirChains(o, p, s, path, j0) != []
    decreases j - j0
  {
    if j0 < j {
      DirChainsHas(o, p, s, path, j0 + 1, j);
    }
  }

  lemma {:induction false} ManJumpFound(o: Owners, p: Piece, s: Square, path: seq<Square>, d: Dir)
    requires OnBoard(s) && d in Directions && |path| >= 1
    requires EmptyAt(o, Ray(s, d, 2)) && EnemyAt(o, p.color, Ray(s, d, 1))
    ensures ManChains(o, p, s, path, d) != []
    decreases |Enemies(o, p.color)|, 1, 0
  {
    var t, m := Ray(s, d, 2), Ray(s, d, 1);
    EnemiesShrink(o, p.color, s, t, m);
    ChainsNonEmpty(ApplyJump(o, p.color, s, t, m), p, t, path + [t]);
  }

  /** A King scan from `s` along `d`, at distance `step`, that has not yet passed the landing at distance `n`. */
  ghost predicate Reaching(o: Owners, p: Piece, s: Square, d: Dir, step: int, enemy: int, n: int) {
    OnBoard(s) && d in Directions &&
    ScanState(o, p, s, d, step, enemy) && step <= n &&
    (enemy > 0 ==> EnemyAt(o, p.color, Ray(s, d, enemy))) &&
    IsCaptureTarget(o, p, s, Ray(s, d, n))
  }

  /** A King scan that has not yet passed a landing at distance `n` yields chains. */
  lemma {:induction false} KingScanReaches(o: Owners, p: Piece, s: Square, path: seq<Square>, d: Dir, step: int, enemy: int, n: int)
    requires |path| >= 1 && Reaching(o, p, s, d, step, enemy, n)
    ensures KingScan(o, p, s, path, d, step, enemy) != []
    decreases |Enemies(o, p.color)|, 1, 2 * (n - step) + 2
  {
    var sq := Ray(s, d, step);
    ScanTowardLanding(o, p, s, d, step, enemy, n);
    if o[sq.row][sq.col].None? {
      if step == n {
        KingScanLands(o, p, s, path, d, step, enemy);
      } else {
        KingScanPastEmpty(o, p, s, path, d, step, enemy, n);
      }
    } else {
      KingScanPastEnemy(o, p, s, path, d, step, n);
    }
  }

  /** The scan passes an empty square that is not yet the landing `n`. */
  lemma {:induction false} KingScanPastEmpty(o: Owners, p: Piece, s: Square, path: seq<Square>, d: Dir, step: int, enemy: int, n: int)
    requires |path| >= 1 && 0 <= enemy < step && EmptyAt(o, Ray(s, d, step))
    requires Reaching(o, p, s, d, step + 1, enemy, n)
    ensures KingScan(o, p, s, path, d, step, enemy) != []
    decreases |Enemies(o, p.color)|, 1, 2 * (n - step) + 1
  {
    KingScanReaches(o, p, s, path, d, step + 1, enemy, n);
  }

  /** The scan passes the enemy it is to capture. */
  lemma {:induction false} KingScanPastEnemy(o: Owners, p: Piece, s: Square, path: seq<Square>, d: Dir, step: int, n: int)
    requires |path| >= 1 && step > 0 && EnemyAt(o, p.color, Ray(s, d, step))
    requires Reaching(o, p, s, d, step + 1, step, n)
    ensures KingScan(o, p, s, path, d, step, 0) != []
    decreases |Enemies(o, p.color)|, 1, 2 * (n - step) + 1
  {
    KingScanReaches(o, p, s, path, d, step + 1, step, n);
  }

  /** What the scan meets on its way to a landing at distance `n`. */
  lemma ScanTowardLanding(o: Owners, p: Piece, s: Square, d: Dir, step: int, enemy: int, n: int)
    requires Reaching(o, p, s, d, step, enemy, n)
    ensures OnBoard(Ray(s, d, step))
    ensures o[Ray(s, d, step).row][Ray(s, d, step).col].None? && step == n ==> enemy > 0
    ensures o[Ray(s, d, step).row][Ray(s, d, step).col].None? && step < n ==> Reaching(o, p, s, d, step + 1, enemy, n)
    ensures o[Ray(s, d, step).row][Ray(s, d, step).col].Some? ==> step < n && enemy == 0 && Reaching(o, p, s, d, step + 1, step, n)
  {
    var t := Ray(s, d, n);
    var k :| CaptureStep(o, p, s, t, k);
    RayDirection(s, d, n);
    assert OnlyEnemyBetween(o, p.color, s, d, n, k);
    RayBetween(s, d, step, n);
  }

  /** An empty square past an enemy is a landing, and the chains through it are reported. */
  lemma {:induction false} KingScanLands(o: Owners, p: Piece, s: Square, path: seq<Square>, d: Dir, step: int, enemy: int)
    requires OnBoard(s) && d in Directions && |path| >= 1 && 0 < enemy < step
    requires EnemyAt(o, p.color, Ray(s, d, enemy))
    requires OnBoard(Ray(s, d, step)) && o[Ray(s, d, step).row][Ray(s, d, step).col].None?
    ensures KingScan(o, p, s, path, d, step, enemy) != []
    decreases |Enemies(o, p.color)|, 1, 0
  {
    var sq := Ray(s, d, step);
    EnemiesShrink(o, p.color, s, sq, Ray(s, d, enemy));
    ChainsNonEmpty(ApplyJump(o, p.color, s, sq, Ray(s, d, enemy)), p, sq, path + [sq]);
  }


  /** Without any capture from `s` the scan of each direction yields nothing. */
  lemma {:induction false} KingScanEmpty(o: Owners, p: Piece, s: Square, path: seq<Square>, d: Dir, step: int, enemy: int)
    requires OnBoard(s) && d in Directions && p.rank == King && !CanCapture(o, p, s)
    requires ScanState(o, p, s, d, step, enemy)
    requires enemy > 0 ==> EnemyAt(o, p.color, Ray(s, d, enemy))
    ensures KingScan(o, p, s, path, d, step, enemy) == []
    decreases 9 - step
  {
    var n := Ray(s, d, step);
    if OnBoard(n) {
      if o[n.row][n.col].None? {
        if enemy > 0 {
          RayDirection(s, d, step);
          assert CaptureStep(o, p, s, n, enemy);
          assert IsCaptureTarget(o, p, s, n);
          assert false;
        }
        KingScanEmpty(o, p, s, path, d, step + 1, enemy);
      } else if o[n.row][n.col].value != p.color && enemy == 0 {
        KingScanEmpty(o, p, s, path, d, step + 1, step);
      }
    }
  }

  lemma {:induction false} DirChainsEmpty(o: Owners, p: Piece, s: Square, path: seq<Square>, j: nat)
    requires OnBoard(s) && j <= 4 && !CanCapture(o, p, s)
    ensures DirChains(o, p, s, path, j) == []
    decreases 4 - j
  {
    if j < 4 {
      var d := Directions[j];
      if p.rank == Man {
        var t := Ray(s, d, 2);
        if EmptyAt(o, t) && EnemyAt(o, p.color, Ray(s, d, 1)) {
          RayDirection(s, d, 2);
          assert CaptureStep(o, p, s, t, 1);
          assert IsCaptureTarget(o, p, s, t);
          assert false;
        }
      } else {
        KingScanEmpty(o, p, s, path, d, 1, 0);
      }
      DirChainsEmpty(o, p, s, path, j + 1);
    }
  }

  /**
   * The search from a piece's own square: it reports something exactly when
   * the piece has a capture, and each report is a maximal chain from there
   * (`ChainsFromStartComplete` gives the converse).
   */
  lemma ChainsFromStart(o: Owners, p: Piece, s: Square)
    requires OnBoard(s)
    ensures Chains(o, p, s, [s]) != [] <==> CanCapture(o, p, s)
    ensures forall q :: q in Chains(o, p, s, [s]) ==> |q| >= 2 && q[0] == s && IsMaximalChain(o, p, q)
  {
    ChainsSound(o, p, s, [s]);
    if CanCapture(o, p, s) {
      var t :| IsCaptureTarget(o, p, s, t);
      var k :| CaptureStep(o, p, s, t, k);
      RayOnDiagonal(s, t);
      var d := DirTo(s, t);
      var j :| 0 <= j < 4 && Directions[j] == d;
      if p.rank == Man {
        assert k == 1 && t == Ray(s, d, 2);
        ManJumpFound(o, p, s, [s], d);
      } else {
        KingScanReaches(o, p, s, [s], d, 1, 0, Dist(s, t));
      }
      DirChainsHas(o, p, s, [s], 0, j);
    } else {
      DirChainsEmpty(o, p, s, [s], 0);
    }
    forall q | q in Chains(o, p, s, [s])
      ensures q[0] == s
    {
      assert q[..1] == [s];
    }
  }

  // ---------------------------------------------------------------------
  // Every maximal chain is reported
  // ---------------------------------------------------------------------

  /**
   * Every continuation of `path` by a maximal chain from `s` that holds at
   * least one capture is among the reported chains.
   */
  lemma {:induction false} ChainsComplete(o: Owners, p: Piece, s: Square, path: seq<Square>, q: seq<Square>)
    requires OnBoard(s) && |path| >= 1 && path[|path| - 1] == s
    requires |q| >= 2 && |q| >= |path| && q[..|path|] == path && IsMaximalChain(o, p, q[|path| - 1..])
    ensures q in Chains(o, p, s, path)
    decreases |Enemies(o, p.color)|
  {
    var tail := q[|path| - 1..];
    if |tail| == 1 {
      assert q == path;
    } else {
      var t := tail[1];
      assert t == q[|path|] && tail[1..] == q[|path|..];
      var k :| CaptureStep(o, p, s, t, k);
      AfterJumpAt(o, p, s, t, k);
      var o' := AfterJump(o, p, s, t);
      EnemiesShrink(o, p.color, s, t, Captured(s, t, k));
      assert q[..|path| + 1] == path + [t];
      ChainsComplete(o', p, t, path + [t], q);
      RayOnDiagonal(s, t);
      var d := DirTo(s, t);
      var j :| 0 <= j < 4 && Directions[j] == d;
      if p.rank == Man {
        assert k == 1 && t == Ray(s, d, 2) && Captured(s, t, k) == Ray(s, d, 1);
      } else {
        KingScanHas(o, p, s, path, d, 1, 0, Dist(s, t), q);
      }
      DirChainsMember(o, p, s, path, 0, j, q);
    }
  }

  /** Every maximal chain from `s` holding at least one capture is reported by the search from `s`. */
  lemma ChainsFromStartComplete(o: Owners, p: Piece, s: Square)
    requires OnBoard(s)
    ensures forall q :: |q| >= 2 && q[0] == s && IsMaximalChain(o, p, q) ==> q in Chains(o, p, s, [s])
  {
    forall q | |q| >= 2 && q[0] == s && IsMaximalChain(o, p, q)
      ensures q in Chains(o, p, s, [s])
    {
      assert q[..1] == [s] && q[0..] == q;
      ChainsComplete(o, p, s, [s], q);
    }
  }

  /** A chain found in one direction is found by the whole search over the directions. */
  lemma {:induction false} DirChainsMember(o: Owners, p: Piece, s: Square, path: seq<Square>, j0: nat, j: nat, q: seq<Square>)
    requires OnBoard(s) && j0 <= j < 4
    requires q in (if p.rank == Man then ManChains(o, p, s, path, Directions[j]) else KingScan(o, p, s, path, Directions[j], 1, 0))
    ensures q in DirChains(o, p, s, path, j0)
    decreases j - j0
  {
    if j0 < j {
      DirChainsMember(o, p, s, path, j0 + 1, j, q);
    }
  }

  /** A King scan that has not yet passed the landing at distance `n` reports the chains through it. */
  lemma {:induction false} KingScanHas(o: Owners, p: Piece, s: Square, path: seq<Square>, d: Dir, step: int, enemy: int, n: int,
                                        q: seq<Square>)
    requires |path| >= 1 && Reaching(o, p, s, d, step, enemy, n)
    requires q in Chains(AfterJump(o, p, s, Ray(s, d, n)), p, Ray(s, d, n), path + [Ray(s, d, n)])
    ensures q in KingScan(o, p, s, path, d, step, enemy)
    decreases 2 * (n - step) + 2
  {
    var sq := Ray(s, d, step);
    ScanTowardLanding(o, p, s, d, step, enemy, n);
    if o[sq.row][sq.col].None? {
      if step == n {
        KingScanHasLanding(o, p, s, path, d, step, enemy, q);
      } else {
        KingScanPastEmptyHas(o, p, s, path, d, step, enemy, n, q);
      }
    } else {
      KingScanPastEnemyHas(o, p, s, path, d, step, n, q);
    }
  }

  /** The landing's chains are part of the scan that reaches it. */
  lemma KingScanHasLanding(o: Owners, p: Piece, s: Square, path: seq<Square>, d: Dir, step: int, enemy: int, q: seq<Square>)
    requires OnBoard(s) && d in Directions && ScanState(o, p, s, d, step, enemy) && enemy > 0
    requires EnemyAt(o, p.color, Ray(s, d, enemy))
    requires OnBoard(Ray(s, d, step)) && IsCaptureTarget(o, p, s, Ray(s, d, step))
    requires q in Chains(AfterJump(o, p, s, Ray(s, d, step)), p, Ray(s, d, step), path + [Ray(s, d, step)])
    ensures q in KingScan(o, p, s, path, d, step, enemy)
  {
    var sq := Ray(s, d, step);
    RayDirection(s, d, step);
    assert CaptureStep(o, p, s, sq, enemy);
    AfterJumpAt(o, p, s, sq, enemy);
  }

  /** Past an empty square that is not yet the landing, the scan goes on to it. */
  lemma {:induction false} KingScanPastEmptyHas(o: Owners, p: Piece, s: Square, path: seq<Square>, d: Dir, step: int, enemy: int, n: int,
                                                 q: seq<Square>)
    requires |path| >= 1 && 0 <= enemy < step && EmptyAt(o, Ray(s, d, step))
    requires Reaching(o, p, s, d, step + 1, enemy, n)
    requires q in Chains(AfterJump(o, p, s, Ray(s, d, n)), p, Ray(s, d, n), path + [Ray(s, d, n)])
    ensures q in KingScan(o, p, s, path, d, step, enemy)
    decreases 2 * (n - step) + 1
  {
    KingScanHas(o, p, s, path, d, step + 1, enemy, n, q);
  }

  /** Past the first enemy, the scan goes on to the landing. */
  lemma {:induction false} KingScanPastEnemyHas(o: Owners, p: Piece, s: Square, path: seq<Square>, d: Dir, step: int, n: int,
                                                 q: seq<Square>)
    requires |path| >= 1 && step > 0 && EnemyAt(o, p.color, Ray(s, d, step))
    requires Reaching(o, p, s, d, step + 1, step, n)
    requires q in Chains(AfterJump(o, p, s, Ray(s, d, n)), p, Ray(s, d, n), path + [Ray(s, d, n)])
    ensures q in KingScan(o, p, s, path, d, step, 0)
    decreases 2 * (n - step) + 1
  {
    KingScanHas(o, p, s, path, d, step + 1, step, n, q);
  }

  // ---------------------------------------------------------------------
  // Facts the imperative search relies on
  // ---------------------------------------------------------------------

  /** Some square along `d` is a landing of a capture from `s`. */
  ghost predicate DirCanCapture(o: Owners, p: Piece, s: Square, d: Dir) {
    exists m :: m >= 1 && IsCaptureTarget(o, p, s, Ray(s, d, m))
  }

  lemma CanCaptureByDirection(o: Owners, p: Piece, s: Square)
    ensures CanCapture(o, p, s) <==> exists j :: 0 <= j < 4 && DirCanCapture(o, p, s, Directions[j])
  {
    if CanCapture(o, p, s) {
      var t :| IsCaptureTarget(o, p, s, t);
      var k :| CaptureStep(o, p, s, t, k);
      RayOnDiagonal(s, t);
      var j :| 0 <= j < 4 && Directions[j] == DirTo(s, t);
      assert IsCaptureTarget(o, p, s, Ray(s, Directions[j], Dist(s, t)));
    }
  }

  /** Some direction among `Directions[0]` .. `Directions[j-1]` has a capture. */
  ghost predicate CaptureInDirs(o: Owners, p: Piece, s: Square, j: int)
    requires 0 <= j <= 4
  {
    j > 0 && (CaptureInDirs(o, p, s, j - 1) || DirCanCapture(o, p, s, Directions[j - 1]))
  }

  lemma CaptureInAllDirs(o: Owners, p: Piece, s: Square)
    ensures CaptureInDirs(o, p, s, 4) <==> CanCapture(o, p, s)
  {
    CanCaptureByDirection(o, p, s);
    assert !CaptureInDirs(o, p, s, 0);
    forall j | 0 <= j < 4
      ensures CaptureInDirs(o, p, s, j + 1) <==> CaptureInDirs(o, p, s, j) || DirCanCapture(o, p, s, Directions[j])
    {
    }
    if CanCapture(o, p, s) {
      var j :| 0 <= j < 4 && DirCanCapture(o, p, s, Directions[j]);
      CaptureInDirsGrows(o, p, s, j + 1);
    } else {
      CaptureInDirsNone(o, p, s, 4);
    }
  }

  lemma {:induction false} CaptureInDirsGrows(o: Owners, p: Piece, s: Square, j: int)
    requires 0 < j <= 4 && CaptureInDirs(o, p, s, j)
    ensures CaptureInDirs(o, p, s, 4)
    decreases 4 - j
  {
    if j < 4 {
      CaptureInDirsGrows(o, p, s, j + 1);
    }
  }

  lemma {:induction false} CaptureInDirsNone(o: Owners, p: Piece, s: Square, j: int)
    requires 0 <= j <= 4 && forall i :: 0 <= i < j ==> !DirCanCapture(o, p, s, Directions[i])
    ensures !CaptureInDirs(o, p, s, j)
  {
    if j > 0 {
      CaptureInDirsNone(o, p, s, j - 1);
    }
  }

  /** A Man captures along `d` exactly when the neighbour is an enemy and the square behind it is empty. */
  lemma ManDirCanCapture(o: Owners, p: Piece, s: Square, d: Dir)
    requires OnBoard(s) && d in Directions && p.rank == Man
    ensures DirCanCapture(o, p, s, d) <==> EmptyAt(o, Ray(s, d, 2)) && EnemyAt(o, p.color, Ray(s, d, 1))
  {
    if DirCanCapture(o, p, s, d) {
      var m :| m >= 1 && IsCaptureTarget(o, p, s, Ray(s, d, m));
      var k :| CaptureStep(o, p, s, Ray(s, d, m), k);
      RayDirection(s, d, m);
    }
    if EmptyAt(o, Ray(s, d, 2)) && EnemyAt(o, p.color, Ray(s, d, 1)) {
      RayDirection(s, d, 2);
      assert CaptureStep(o, p, s, Ray(s, d, 2), 1);
    }
  }

  /** Writing `x` on one square changes only that square's owner. */
  lemma OwnersOfSetCell(g: Grid, s: Square, x: Option<Piece>)
    requires OnBoard(s)
    ensures OwnersOf(SetCell(g, s, x)) == SetCell(OwnersOf(g), s, ColorOf(x))
  {
    GridExt(OwnersOf(SetCell(g, s, x)), SetCell(OwnersOf(g), s, ColorOf(x)));
  }

  /** One step of the King scan: what the square at distance `step` contributes, and the scan state after it. */
  lemma KingScanStep(o: Owners, p: Piece, s: Square, path: seq<Square>, d: Dir, step: int, enemy: int)
    requires OnBoard(s) && d in Directions && p.rank == King && ScanState(o, p, s, d, step, enemy)
    requires enemy > 0 ==> EnemyAt(o, p.color, Ray(s, d, enemy))
    requires OnBoard(Ray(s, d, step))
    ensures var n := Ray(s, d, step);
      (o[n.row][n.col].None? && enemy > 0 ==>
        IsCaptureTarget(o, p, s, n) && ScanState(o, p, s, d, step + 1, enemy) &&
        KingScan(o, p, s, path, d, step, enemy) ==
          Chains(ApplyJump(o, p.color, s, n, Ray(s, d, enemy)), p, n, path + [n]) + KingScan(o, p, s, path, d, step + 1, enemy)) &&
      (o[n.row][n.col].None? && enemy == 0 ==>
        !IsCaptureTarget(o, p, s, n) && ScanState(o, p, s, d, step + 1, enemy) &&
        KingScan(o, p, s, path, d, step, enemy) == KingScan(o, p, s, path, d, step + 1, enemy)) &&
      (o[n.row][n.col].Some? && (o[n.row][n.col].value == p.color || enemy > 0) ==>
        NoLandingFrom(o, p, s, d, step) && KingScan(o, p, s, path, d, step, enemy) == []) &&
      (o[n.row][n.col].Some? && o[n.row][n.col].value != p.color && enemy == 0 ==>
        !IsCaptureTarget(o, p, s, n) && ScanState(o, p, s, d, step + 1, step) && EnemyAt(o, p.color, n) &&
        KingScan(o, p, s, path, d, step, enemy) == KingScan(o, p, s, path, d, step + 1, step)) &&
      (LandingBefore(o, p, s, d, step + 1) <==> LandingBefore(o, p, s, d, step) || IsCaptureTarget(o, p, s, n))
  {
    var n := Ray(s, d, step);
    LandingBeforeStep(o, p, s, d, step);
    if o[n.row][n.col].None? {
      if enemy > 0 {
        LandingAfterEnemy(o, p, s, d, step, enemy);
      } else {
        NoLandingBeforeEnemy(o, p, s, d, step);
      }
    } else {
      NotLandingOccupied(o, p, s, d, step);
      if o[n.row][n.col].value == p.color || enemy > 0 {
        Blocked(o, p, s, d, step, enemy > 0, enemy);
      }
    }
  }

  /** Some square at distance 1 .. i-1 along `d` is a landing. */
  ghost predicate LandingBefore(o: Owners, p: Piece, s: Square, d: Dir, i: int) {
    exists m :: 1 <= m < i && IsCaptureTarget(o, p, s, Ray(s, d, m))
  }

  lemma LandingBeforeStep(o: Owners, p: Piece, s: Square, d: Dir, i: int)
    requires i >= 1
    ensures LandingBefore(o, p, s, d, i + 1) <==> LandingBefore(o, p, s, d, i) || IsCaptureTarget(o, p, s, Ray(s, d, i))
  {
    if LandingBefore(o, p, s, d, i + 1) {
      var m :| 1 <= m < i + 1 && IsCaptureTarget(o, p, s, Ray(s, d, m));
      if m < i {
        assert LandingBefore(o, p, s, d, i);
      }
    }
  }

  /** Once no landing lies at distance `i` or more, the direction's captures are those before `i`. */
  lemma DirCanCaptureBefore(o: Owners, p: Piece, s: Square, d: Dir, i: int)
    requires NoLandingFrom(o, p, s, d, i)
    ensures DirCanCapture(o, p, s, d) <==> LandingBefore(o, p, s, d, i)
  {
    if DirCanCapture(o, p, s, d) {
      var m :| m >= 1 && IsCaptureTarget(o, p, s, Ray(s, d, m));
      assert m < i;
    }
  }

  // ---------------------------------------------------------------------
  // The loop state of the King branch of `rec`, one lemma per kind of square
  // ---------------------------------------------------------------------

  /**
   * After the squares at distances 1 .. step-1: `more` holds the chains found
   * so far, `enemy` is the distance of the enemy met (0 if none) and `e` its
   * square, and `ext` records whether a landing was met.
   */
  ghost predicate KingLoop(o: Owners, p: Piece, s: Square, path: seq<Square>, d: Dir, step: int, enemy: int, e: Square,
                           more: seq<seq<Square>>, ext: bool)
    requires OnBoard(s) && d in Directions
  {
    p.rank == King && ScanState(o, p, s, d, step, enemy) && (enemy > 0 ==> e == Ray(s, d, enemy) && EnemyAt(o, p.color, e)) &&
    more + KingScan(o, p, s, path, d, step, enemy) == KingScan(o, p, s, path, d, 1, 0) &&
    (ext <==> LandingBefore(o, p, s, d, step))
  }

  lemma KingLoopStart(o: Owners, p: Piece, s: Square, path: seq<Square>, d: Dir)
    requires OnBoard(s) && d in Directions && p.rank == King
    ensures KingLoop(o, p, s, path, d, 1, 0, Square(-1, -1), [], false)
  {
  }

  /** An empty square after the enemy: a landing, whose chains are appended. */
  lemma KingLoopLanding(o: Owners, p: Piece, s: Square, path: seq<Square>, d: Dir, step: int, enemy: int, e: Square,
                        more: seq<seq<Square>>, ext: bool, sub: seq<seq<Square>>)
    requires OnBoard(s) && d in Directions && KingLoop(o, p, s, path, d, step, enemy, e, more, ext) && enemy > 0
    requires EmptyAt(o, Ray(s, d, step))
    requires sub == Chains(ApplyJump(o, p.color, s, Ray(s, d, step), e), p, Ray(s, d, step), path + [Ray(s, d, step)])
    ensures KingLoop(o, p, s, path, d, step + 1, enemy, e, more + sub, true)
  {
    KingScanStep(o, p, s, path, d, step, enemy);
    assert (more + sub) + KingScan(o, p, s, path, d, step + 1, enemy) == more + KingScan(o, p, s, path, d, step, enemy);
  }

  /** What a landing step needs to apply the capture. */
  lemma KingLoopLandingSquares(o: Owners, p: Piece, s: Square, path: seq<Square>, d: Dir, step: int, enemy: int, e: Square,
                               more: seq<seq<Square>>, ext: bool)
    requires OnBoard(s) && d in Directions && KingLoop(o, p, s, path, d, step, enemy, e, more, ext) && enemy > 0
    requires OnBoard(Ray(s, d, step))
    ensures EnemyAt(o, p.color, e) && s != Ray(s, d, step) && s != e && Ray(s, d, step) != e
  {
    RayDirection(s, d, step);
    RayDirection(s, d, enemy);
  }

  /** An empty square before any enemy: nothing to record. */
  lemma KingLoopEmpty(o: Owners, p: Piece, s: Square, path: seq<Square>, d: Dir, step: int, enemy: int, e: Square,
                      more: seq<seq<Square>>, ext: bool)
    requires OnBoard(s) && d in Directions && KingLoop(o, p, s, path, d, step, enemy, e, more, ext) && enemy == 0
    requires EmptyAt(o, Ray(s, d, step))
    ensures KingLoop(o, p, s, path, d, step + 1, enemy, e, more, ext)
  {
    KingScanStep(o, p, s, path, d, step, enemy);
  }

  /** The first enemy: remembered. */
  lemma KingLoopEnemy(o: Owners, p: Piece, s: Square, path: seq<Square>, d: Dir, step: int, enemy: int, e: Square,
                      more: seq<seq<Square>>, ext: bool)
    requires OnBoard(s) && d in Directions && KingLoop(o, p, s, path, d, step, enemy, e, more, ext) && enemy == 0
    requires EnemyAt(o, p.color, Ray(s, d, step))
    ensures KingLoop(o, p, s, path, d, step + 1, step, Ray(s, d, step), more, ext)
  {
    KingScanStep(o, p, s, path, d, step, enemy);
  }

  /** An own piece, or a second piece: the scan of this direction is over. */
  lemma KingLoopBlocked(o: Owners, p: Piece, s: Square, path: seq<Square>, d: Dir, step: int, enemy: int, e: Square,
                        more: seq<seq<Square>>, ext: bool)
    requires OnBoard(s) && d in Directions && KingLoop(o, p, s, path, d, step, enemy, e, more, ext)
    requires OnBoard(Ray(s, d, step)) && o[Ray(s, d, step).row][Ray(s, d, step).col].Some?
    requires o[Ray(s, d, step).row][Ray(s, d, step).col].value == p.color || enemy > 0
    ensures more == KingScan(o, p, s, path, d, 1, 0) && (ext <==> DirCanCapture(o, p, s, d))
  {
    KingScanStep(o, p, s, path, d, step, enemy);
    DirCanCaptureBefore(o, p, s, d, step);
  }

  /** The scan left the board. */
  lemma KingLoopOff(o: Owners, p: Piece, s: Square, path: seq<Square>, d: Dir, step: int, enemy: int, e: Square,
                    more: seq<seq<Square>>, ext: bool)
    requires OnBoard(s) && d in Directions && KingLoop(o, p, s, path, d, step, enemy, e, more, ext) && !OnBoard(Ray(s, d, step))
    ensures more == KingScan(o, p, s, path, d, 1, 0) && (ext <==> DirCanCapture(o, p, s, d))
  {
    OffBoardFrom(o, p, s, d, step);
    DirCanCaptureBefore(o, p, s, d, step);
  }
}

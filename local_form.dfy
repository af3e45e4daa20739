/**
 * The stand-alone Swing game (`TabuleiroForm` in the default package): both
 * players share one window and click squares.  A first click selects a piece
 * of the side to move; a second click moves or captures with it.  A win is
 * announced in a dialog, after which the program exits.
 *
 * The form keeps its board in a `String[8][8]` (here an array of
 * `Option<Piece>`, see module Board), the side to move in `vezBrancas` and the
 * selection in `selecR, selecC` (-1 when nothing is selected).  `Form` is the
 * value the class mirrors; `ClickSpec` is the reference definition of one
 * click.  Dialogs are returned as the text they show.
 */
module LocalForm {
  import opened JavaInt
  import opened Board
  import GameStateModel

  const NotYourTurn := "Não é a sua vez!"
  const MustMoveCapturer := "Você deve mover a peça que pode capturar!"
  const CaptureRequired := "Captura é obrigatória!"
  const SequentialCapture := "Captura sequencial obrigatória! Mova a peça selecionada."
  const BlackWinsNoWhite := "Pretas venceram! (Todas as peças brancas capturadas)"
  const WhiteWinsNoBlack := "Brancas venceram! (Todas as peças pretas capturadas)"
  const BlackWinsBlocked := "Pretas venceram! (Brancas afogadas/sem movimentos)"
  const WhiteWinsBlocked := "Brancas venceram! (Pretas afogadas/sem movimentos)"

  /** The form's state: the board, `vezBrancas`, `selecR, selecC`, and whether `System.exit` has run. */
  datatype Form = Form(board: Grid, whiteTurn: bool, selR: int, selC: int, exited: bool)

  /** The state after an action, and the dialog it showed, if any. */
  datatype Reaction = Reaction(form: Form, dialog: Option<string>)

  /** A click the program can still receive: it has not exited, the square is on the board, any selection is too. */
  predicate Clickable(f: Form, r: int, c: int) {
    !f.exited && InBounds(r, c) && (f.selR == -1 || InBounds(f.selR, f.selC))
  }

  /** `(r1 + c1) % 2 == 0`: a square no piece should stand on. */
  predicate Light(s: Square) {
    (s.row + s.col) % 2 == 0
  }

  // ---------------------------------------------------------------------
  // Reference definitions
  // ---------------------------------------------------------------------

  /**
   * `verificarVitoria`: a side without pieces loses; then the side to move
   * loses when none of its pieces has a capture or a one-square move.
   */
  ghost function VictorySpec(g: Grid, whiteTurn: bool): Option<string> {
    if !HasPiece(g, White) then Some(BlackWinsNoWhite)
    else if !HasPiece(g, Black) then Some(WhiteWinsNoBlack)
    else if whiteTurn && HasPiece(g, White) && !HasMoveFor(g, White) then Some(BlackWinsBlocked)
    else if !whiteTurn && HasPiece(g, Black) && !HasMoveFor(g, Black) then Some(WhiteWinsBlocked)
    else None
  }

  /**
   * The end of `realizarMovimento` once the board holds `h`: the turn
   * passes, then `verificarVitoria` runs on the new board and side to move,
   * and a verdict shows its dialog and exits the program.
   */
  ghost function Finished(f: Form, h: Grid): (r: Reaction)
    requires !f.exited
    ensures r.form.board == h && r.form.whiteTurn == !f.whiteTurn
    ensures r.form.selR == f.selR && r.form.selC == f.selC
    ensures r.form.exited <==> r.dialog.Some?
  {
    var v := VictorySpec(h, !f.whiteTurn);
    Reaction(Form(h, !f.whiteTurn, f.selR, f.selC, v.Some?), v)
  }

  /**
   * A capture (`realizarCaptura` then `checarCapturasSequenciais`): the
   * jump is made and the turn passes; unless the program exited, a capturer
   * that can capture again from its landing square gets the turn back and
   * is selected, with a dialog.
   */
  ghost function CaptureSpec(f: Form, s: Square, t: Square): Reaction
    requires !f.exited && OnBoard(s) && OnBoard(t) && At(f.board, s).Some?
    requires IsCaptureTarget(OwnersOf(f.board), At(f.board, s).value, s, t)
  {
    var h := JumpResult(f.board, s, t);
    var r := Finished(f, h);
    if r.form.exited then r
    else if At(h, t).Some? && CanCapture(OwnersOf(h), At(h, t).value, t) then
      Reaction(r.form.(whiteTurn := f.whiteTurn, selR := t.row, selC := t.col), Some(SequentialCapture))
    else r
  }

  /**
   * `moverOuCapturar(r1, c1, r2, c2)`, in the order of its checks.  Nothing
   * happens for an empty origin, a light origin square, an occupied
   * destination or a move off the diagonals.  A move of length two or more
   * onto one of the piece's capture landings is a capture.  Otherwise a
   * capture anywhere for the side to move refuses the move with a dialog; a
   * Man steps one square forward; a King moves any distance along a clear
   * diagonal.
   */
  ghost function MoveSpec(f: Form, s: Square, t: Square): Reaction
    requires !f.exited && OnBoard(s) && OnBoard(t)
  {
    var g := f.board;
    var dr, dc := t.row - s.row, t.col - s.col;
    if At(g, s).None? || Light(s) || At(g, t).Some? then Reaction(f, None)
    else if Abs(dr) != Abs(dc) then Reaction(f, None)
    else AttemptSpec(f, s, t)
  }

  /** A diagonal move of an origin piece into an empty square: a capture, a refusal, or a simple move. */
  ghost function AttemptSpec(f: Form, s: Square, t: Square): Reaction
    requires !f.exited && OnBoard(s) && OnBoard(t) && At(f.board, s).Some?
  {
    var g := f.board;
    if Abs(t.row - s.row) >= 2 && IsCaptureTarget(OwnersOf(g), At(g, s).value, s, t) then CaptureSpec(f, s, t)
    else if SideCanCapture(g, SideToMove(f.whiteTurn)) then Reaction(f, Some(CaptureRequired))
    else StepSpec(f, s, t)
  }

  /** A move that is not a capture: a Man one square forward, a King along a clear diagonal. */
  ghost function StepSpec(f: Form, s: Square, t: Square): Reaction
    requires !f.exited && OnBoard(s) && OnBoard(t) && At(f.board, s).Some?
  {
    var p := At(f.board, s).value;
    var dr, dc := t.row - s.row, t.col - s.col;
    if (p.rank == Man && dr == Forward(p.color) && Abs(dc) == 1) ||
       (p.rank == King && PathClear(OwnersOf(f.board), s, t))
    then Finished(f, MoveAndPromote(f.board, s, t))
    else Reaction(f, None)
  }

  /**
   * `cliqueCasa(r, c)`.  With nothing selected, a click on a piece of the
   * side to move selects it, unless the side has a capture and this piece
   * has none; a click on the opponent's piece is refused with a dialog.  With
   * a piece selected, the click is its destination, and the selection is
   * cleared afterwards (unless the program exited).
   */
  ghost function ClickSpec(f: Form, r: int, c: int): Reaction
    requires Clickable(f, r, c)
  {
    var g := f.board;
    var sq := Square(r, c);
    if f.selR == -1 && At(g, sq).Some? then
      var p := At(g, sq).value;
      if (p.color == White) == f.whiteTurn then
        if !SideCanCapture(g, SideToMove(f.whiteTurn)) || CanCapture(OwnersOf(g), p, sq) then
          Reaction(f.(selR := r, selC := c), None)
        else Reaction(f, Some(MustMoveCapturer))
      else Reaction(f, Some(NotYourTurn))
    else if f.selR != -1 then
      var m := MoveSpec(f, Square(f.selR, f.selC), sq);
      if m.form.exited then m else Reaction(m.form.(selR := -1, selC := -1), m.dialog)
    else Reaction(f, None)
  }

  // ---------------------------------------------------------------------
  // The form
  // ---------------------------------------------------------------------

  class LocalBoard {
    var pecas: array2<Option<Piece>>
    ghost var cells: Grid
    var vezBrancas: bool
    var selecR: int
    var selecC: int
    var exited: bool

    ghost predicate Valid()
      reads this, pecas
    {
      Mirrors(pecas, cells) && (selecR == -1 || InBounds(selecR, selecC))
    }

    ghost function State(): Form
      reads this
    {
      Form(cells, vezBrancas, selecR, selecC, exited)
    }

    /** The form as its constructor leaves it: the standard layout, White to move, nothing selected. */
    constructor()
      ensures Valid() && fresh(pecas)
      ensures State() == Form(InitialGrid(), true, -1, -1, false)
    {
      pecas := new Option<Piece>[8, 8];
      cells := InitialGrid();
      vezBrancas := true;
      selecR, selecC := -1, -1;
      exited := false;
      new;
      InitializeBoard(pecas);
    }

    /** `cliqueCasa(r, c)`. */
    method CliqueCasa(r: int, c: int) returns (dialog: Option<string>)
      requires Valid() && Clickable(State(), r, c)
      modifies pecas, this`cells, this`vezBrancas, this`selecR, this`selecC, this`exited
      ensures Valid()
      ensures Reaction(State(), dialog) == ClickSpec(old(State()), r, c)
    {
      if selecR == -1 && pecas[r, c].Some? {
        dialog := Select(r, c);
        return;
      }
      dialog := None;
      if selecR != -1 {
        dialog := MoverOuCapturar(Square(selecR, selecC), Square(r, c));
        if !exited {
          selecR, selecC := -1, -1;
        }
      }
    }

    /** The selection branch of `cliqueCasa`. */
    method Select(r: int, c: int) returns (dialog: Option<string>)
      requires Valid() && InBounds(r, c) && At(cells, Square(r, c)).Some?
      modifies this`selecR, this`selecC
      ensures Valid()
      ensures var f := old(State()); var p := At(cells, Square(r, c)).value;
        Reaction(State(), dialog) ==
          if (p.color == White) == vezBrancas then
            if !SideCanCapture(cells, SideToMove(vezBrancas)) || CanCapture(OwnersOf(cells), p, Square(r, c)) then
              Reaction(f.(selR := r, selC := c), None)
            else Reaction(f, Some(MustMoveCapturer))
          else Reaction(f, Some(NotYourTurn))
    {
      var p := pecas[r, c].value;
      var ehBranca := p.color == White;
      if ehBranca != vezBrancas {
        return Some(NotYourTurn);
      }
      var todasCapturas := EncontrarTodasCapturas(vezBrancas);
      var deveCapturar := |todasCapturas| > 0;
      var capturasDaPeca := MovimentosDeCaptura(pecas[r, c], Square(r, c));
      var estaPecaPodeCapturar := |capturasDaPeca| > 0;
      if estaPecaPodeCapturar {
        assert IsCaptureTarget(OwnersOf(cells), p, Square(r, c), capturasDaPeca[0]);
      }
      if !deveCapturar || estaPecaPodeCapturar {
        selecR, selecC := r, c;
        return None;
      }
      return Some(MustMoveCapturer);
    }

    /** `moverOuCapturar(r1, c1, r2, c2)`. */
    method MoverOuCapturar(s: Square, t: Square) returns (dialog: Option<string>)
      requires Valid() && !exited && OnBoard(s) && OnBoard(t)
      modifies pecas, this`cells, this`vezBrancas, this`selecR, this`selecC, this`exited
      ensures Valid()
      ensures Reaction(State(), dialog) == MoveSpec(old(State()), s, t)
    {
      var peca := pecas[s.row, s.col];
      if peca.None? || Light(s) || pecas[t.row, t.col].Some? {
        return None;
      }
      var dr, dc := t.row - s.row, t.col - s.col;
      if Abs(dr) != Abs(dc) {
        return None;
      }
      dialog := Attempt(s, t);
    }

    /** `moverOuCapturar` past its first checks: try a capture, then the mandatory-capture refusal, then a simple move. */
    method Attempt(s: Square, t: Square) returns (dialog: Option<string>)
      requires Valid() && !exited && OnBoard(s) && OnBoard(t) && At(cells, s).Some? && At(cells, t).None?
      requires Abs(t.row - s.row) == Abs(t.col - s.col) && s != t
      modifies pecas, this`cells, this`vezBrancas, this`selecR, this`selecC, this`exited
      ensures Valid()
      ensures Reaction(State(), dialog) == AttemptSpec(old(State()), s, t)
    {
      var peca := pecas[s.row, s.col];
      var dr := t.row - s.row;
      var capturasObrigatorias := EncontrarTodasCapturas(vezBrancas);
      var deveCapturar := |capturasObrigatorias| > 0;
      if Abs(dr) >= 2 {
        var capturasDaPeca := MovimentosDeCaptura(peca, s);
        var valido := ListContains(capturasDaPeca, t);
        if valido {
          dialog := Capture(s, t);
          return;
        }
      }
      if deveCapturar {
        return Some(CaptureRequired);
      }
      dialog := SimpleMove(s, t);
    }

    /** The capture branch of `moverOuCapturar`: `realizarCaptura`, then `checarCapturasSequenciais`. */
    method Capture(s: Square, t: Square) returns (dialog: Option<string>)
      requires Valid() && !exited && OnBoard(s) && OnBoard(t) && At(cells, s).Some?
      requires IsCaptureTarget(OwnersOf(cells), At(cells, s).value, s, t)
      modifies pecas, this`cells, this`vezBrancas, this`selecR, this`selecC, this`exited
      ensures Valid()
      ensures Reaction(State(), dialog) == CaptureSpec(old(State()), s, t)
    {
      ghost var f := State();
      var captured;
      captured, dialog := RealizarCaptura(s, t);
      if !captured {
        assert false;
      }
      assert Reaction(State(), dialog) == Finished(f, JumpResult(f.board, s, t));
      JumpLands(f.board, s, t);
      if !exited {
        dialog := ChecarCapturasSequenciais(t);
      }
    }

    /** The non-capturing rest of `moverOuCapturar`, once no capture is pending. */
    method SimpleMove(s: Square, t: Square) returns (dialog: Option<string>)
      requires Valid() && !exited && OnBoard(s) && OnBoard(t) && At(cells, s).Some? && At(cells, t).None?
      requires Abs(t.row - s.row) == Abs(t.col - s.col) && s != t
      modifies pecas, this`cells, this`vezBrancas, this`exited
      ensures Valid()
      ensures Reaction(State(), dialog) == StepSpec(old(State()), s, t)
    {
      var p := pecas[s.row, s.col].value;
      var dr, dc := t.row - s.row, t.col - s.col;
      var ehBranca := p.color == White;
      if p.rank == Man {
        if (ehBranca && dr == -1 && Abs(dc) == 1) || (!ehBranca && dr == 1 && Abs(dc) == 1) {
          dialog := RealizarMovimento(s, t);
          return;
        }
      } else {
        var livre := CaminhoLivre(s, t);
        if livre {
          dialog := RealizarMovimento(s, t);
          return;
        }
      }
      return None;
    }

    /**
     * `realizarCaptura`: a King captures when exactly one piece stands
     * strictly between origin and destination and it is an enemy; a Man when
     * the move has length two and the midpoint holds an enemy.  The enemy is
     * removed and `realizarMovimento` finishes the move.
     */
    method RealizarCaptura(s: Square, t: Square) returns (captured: bool, dialog: Option<string>)
      requires Valid() && !exited && OnBoard(s) && OnBoard(t) && Diagonal(s, t) && At(cells, s).Some?
      modifies pecas, this`cells, this`vezBrancas, this`exited
      ensures Valid()
      ensures captured <==> exists k :: CaptureStep(OwnersOf(old(cells)), At(old(cells), s).value, s, t, k)
      ensures captured ==> Reaction(State(), dialog) == Finished(old(State()), JumpResult(old(cells), s, t))
      ensures !captured ==> State() == old(State()) && dialog.None?
    {
      var enemy;
      ghost var k;
      captured, enemy, k := LocateCapture(pecas, cells, s, t);
      dialog := None;
      if captured {
        JumpResultAt(cells, s, t, k);
        pecas[enemy.row, enemy.col] := None;
        cells := SetCell(cells, enemy, None);
        dialog := RealizarMovimento(s, t);
      }
    }

    /** `caminhoLivre`: every square strictly between is empty. */
    method CaminhoLivre(s: Square, t: Square) returns (clear: bool)
      requires Valid() && OnBoard(s) && OnBoard(t) && Diagonal(s, t)
      ensures clear <==> PathClear(OwnersOf(cells), s, t)
    {
      clear := PathIsClear(pecas, cells, s, t);
    }

    /**
     * `realizarMovimento`: move and promote, pass the turn, then
     * `verificarVitoria`, whose verdict is shown before the program exits.
     */
    method RealizarMovimento(s: Square, t: Square) returns (dialog: Option<string>)
      requires Valid() && !exited && OnBoard(s) && OnBoard(t)
      modifies pecas, this`cells, this`vezBrancas, this`exited
      ensures Valid()
      ensures Reaction(State(), dialog) == Finished(old(State()), MoveAndPromote(old(cells), s, t))
    {
      MovePiece(pecas, cells, s, t);
      cells := MoveAndPromote(cells, s, t);
      vezBrancas := !vezBrancas;
      dialog := VerificarVitoria();
      exited := dialog.Some?;
    }

    /**
     * `checarCapturasSequenciais(r, c)`: when the piece on `t` can capture
     * again, the turn is given back to its side and the piece is selected.
     */
    method ChecarCapturasSequenciais(t: Square) returns (dialog: Option<string>)
      requires Valid() && OnBoard(t) && At(cells, t).Some?
      modifies this`vezBrancas, this`selecR, this`selecC
      ensures Valid()
      ensures var f := old(State());
        if CanCapture(OwnersOf(cells), At(cells, t).value, t)
        then State() == f.(whiteTurn := !f.whiteTurn, selR := t.row, selC := t.col) && dialog == Some(SequentialCapture)
        else State() == f && dialog.None?
    {
      var capturas := MovimentosDeCaptura(pecas[t.row, t.col], t);
      if |capturas| > 0 {
        assert IsCaptureTarget(OwnersOf(cells), At(cells, t).value, t, capturas[0]);
        vezBrancas := !vezBrancas;
        selecR, selecC := t.row, t.col;
        return Some(SequentialCapture);
      }
      return None;
    }

    /** `encontrarTodasCapturas(ehBranca)`: the capture landings of every piece of that colour. */
    method EncontrarTodasCapturas(ehBranca: bool) returns (moves: seq<Square>)
      requires Valid()
      ensures forall t :: t in moves <==> SideCaptureTarget(cells, SideToMove(ehBranca), t)
      ensures |moves| > 0 <==> SideCanCapture(cells, SideToMove(ehBranca))
    {
      moves := AllCaptures(pecas, cells, SideToMove(ehBranca));
    }

    /** `movimentosDeCaptura(peca, r, c)`; an empty square has none. */
    method MovimentosDeCaptura(peca: Option<Piece>, s: Square) returns (moves: seq<Square>)
      requires Valid() && OnBoard(s)
      ensures peca.None? ==> moves == []
      ensures peca.Some? ==> forall t :: t in moves <==> IsCaptureTarget(OwnersOf(cells), peca.value, s, t)
    {
      if peca.None? {
        return [];
      }
      moves := CaptureMovements(pecas, cells, peca.value, s);
    }

    /** `verificarVitoria`: the verdict on the current board and side to move, if the game is over. */
    method VerificarVitoria() returns (verdict: Option<string>)
      requires Valid()
      ensures verdict == VictorySpec(cells, vezBrancas)
    {
      var temBranca, temPreta, temMovimentoBranca, temMovimentoPreta := SurveySides(pecas, cells);
      if !temBranca {
        return Some(BlackWinsNoWhite);
      }
      if !temPreta {
        return Some(WhiteWinsNoBlack);
      }
      if vezBrancas && temBranca && !temMovimentoBranca {
        return Some(BlackWinsBlocked);
      }
      if !vezBrancas && temPreta && !temMovimentoPreta {
        return Some(WhiteWinsBlocked);
      }
      return None;
    }
  }

  // ---------------------------------------------------------------------
  // Properties of the local game
  // ---------------------------------------------------------------------

  /**
   * `verificarVitoria` ends the game in exactly the positions where the
   * server's `checkGameOver` does: both colours have pieces and the side to
   * move has a capture or a one-square move.  Only the wording differs.
   */
  lemma VerdictAgreesWithServer(g: Grid, wt: bool)
    ensures VictorySpec(g, wt).None? <==> GameStateModel.GameOverSpec(g, wt).None?
    ensures VictorySpec(g, wt).None? <==> HasPiece(g, White) && HasPiece(g, Black) && HasMoveFor(g, SideToMove(wt))
  {
  }

  /**
   * What a selection holds: a piece of the side to move which, if that side
   * has a capture anywhere, has a capture itself.
   */
  ghost predicate SelectionHeld(f: Form) {
    f.selR == -1 ||
    (InBounds(f.selR, f.selC) && OwnPieceAt(f.board, SideToMove(f.whiteTurn), Square(f.selR, f.selC)) &&
     (SideCanCapture(f.board, SideToMove(f.whiteTurn)) ==>
        CanCapture(OwnersOf(f.board), At(f.board, Square(f.selR, f.selC)).value, Square(f.selR, f.selC))))
  }

  /** Every click keeps the selection sound, from the initial form on, until the program exits. */
  lemma ClickKeepsSelection(f: Form, r: int, c: int)
    requires Clickable(f, r, c) && SelectionHeld(f)
    ensures var res := ClickSpec(f, r, c); !res.form.exited ==> SelectionHeld(res.form)
  {
    var res := ClickSpec(f, r, c);
    if f.selR != -1 && !res.form.exited {
      assert res.form.selR == -1;
    }
  }

  /** The new form starts with nothing selected. */
  lemma InitialSelectionHeld()
    ensures SelectionHeld(Form(InitialGrid(), true, -1, -1, false))
  {
  }

  /**
   * Mandatory capture: with a piece selected while the side to move has a
   * capture, a click that changes the board made a capture with the
   * selected piece onto one of its landings.
   */
  lemma MandatoryCaptureClick(f: Form, r: int, c: int)
    requires Clickable(f, r, c) && f.selR != -1 && SideCanCapture(f.board, SideToMove(f.whiteTurn))
    requires ClickSpec(f, r, c).form.board != f.board
    ensures var s, t := Square(f.selR, f.selC), Square(r, c);
      At(f.board, s).Some? && IsCaptureTarget(OwnersOf(f.board), At(f.board, s).value, s, t) &&
      ClickSpec(f, r, c).form.board == JumpResult(f.board, s, t)
  {
    var s, t := Square(f.selR, f.selC), Square(r, c);
    var m := MoveSpec(f, s, t);
    assert m.form.board == ClickSpec(f, r, c).form.board;
    assert At(f.board, s).Some?;
  }

  /**
   * Unlike the server's rules, the local form lets a King slide any
   * distance along a clear diagonal when its side has no capture.
   */
  lemma KingSlides(f: Form, s: Square, t: Square)
    requires !f.exited && OnBoard(s) && OnBoard(t) && Dark(s.row, s.col) && Diagonal(s, t)
    requires At(f.board, s).Some? && At(f.board, s).value.rank == King && At(f.board, t).None?
    requires PathClear(OwnersOf(f.board), s, t) && !SideCanCapture(f.board, SideToMove(f.whiteTurn))
    ensures MoveSpec(f, s, t) == Finished(f, MoveAndPromote(f.board, s, t))
  {
    var o := OwnersOf(f.board);
    forall k
      ensures !CaptureStep(o, At(f.board, s).value, s, t, k)
    {
      if 1 <= k < Dist(s, t) {
        assert EmptyAt(o, Ray(s, DirTo(s, t), k));
      }
    }
  }

  /**
   * A move either changes nothing at all or empties its origin square: a
   * refused move keeps the board, the turn and the selection as they were.
   */
  lemma MoveEmptiesOrigin(f: Form, s: Square, t: Square)
    requires !f.exited && OnBoard(s) && OnBoard(t)
    ensures var m := MoveSpec(f, s, t);
      m.form == f || (At(f.board, s).Some? && At(m.form.board, s).None?)
  {
    var g := f.board;
    if At(g, s).Some? && !Light(s) && At(g, t).None? && Abs(t.row - s.row) == Abs(t.col - s.col) {
      assert s != t;
      if Abs(t.row - s.row) >= 2 && IsCaptureTarget(OwnersOf(g), At(g, s).value, s, t) {
        var k :| CaptureStep(OwnersOf(g), At(g, s).value, s, t, k);
        JumpEffect(g, s, t, k);
      } else if !SideCanCapture(g, SideToMove(f.whiteTurn)) {
        MoveAndPromoteEffect(g, s, t);
      }
    }
  }

  /**
   * A capture with a follow-up gives the turn back to the capturer and asks
   * for the selected piece to be moved, but `cliqueCasa` clears the
   * selection right afterwards: the next click may select any piece of that
   * side which can capture, not only the one that just landed.
   */
  lemma FollowUpNotLocked(f: Form, r: int, c: int, q: Square)
    requires Clickable(f, r, c) && f.selR != -1
    requires ClickSpec(f, r, c).dialog == Some(SequentialCapture)
    requires var g := ClickSpec(f, r, c).form.board;
      OwnPieceAt(g, SideToMove(f.whiteTurn), q) && CanCapture(OwnersOf(g), At(g, q).value, q)
    ensures var m := ClickSpec(f, r, c).form;
      m.whiteTurn == f.whiteTurn && m.selR == -1 && Clickable(m, q.row, q.col) &&
      ClickSpec(m, q.row, q.col).form == m.(selR := q.row, selC := q.col)
  {
    var s, t := Square(f.selR, f.selC), Square(r, c);
    var m := MoveSpec(f, s, t);
    assert m.dialog == Some(SequentialCapture);
    assert At(f.board, s).Some? && !Light(s) && At(f.board, t).None? && Abs(t.row - s.row) == Abs(t.col - s.col);
    assert Abs(t.row - s.row) >= 2 && IsCaptureTarget(OwnersOf(f.board), At(f.board, s).value, s, t);
  }

  /**
   * After a capture, blockade is tested for the opponent even when the
   * capturer must capture again: a capture that leaves the opponent without
   * a move ends the game for the capturer's side.  The server's
   * `checkGameOver` tests the capturer, who keeps the turn, and lets the
   * game go on (ServerGoesOnAfterFollowUp).
   */
  lemma BlockadeTestedForOpponent(f: Form, s: Square, t: Square)
    requires !f.exited && OnBoard(s) && OnBoard(t) && At(f.board, s).Some?
    requires IsCaptureTarget(OwnersOf(f.board), At(f.board, s).value, s, t)
    requires var h := JumpResult(f.board, s, t);
      HasPiece(h, White) && HasPiece(h, Black) && !HasMoveFor(h, Opponent(SideToMove(f.whiteTurn)))
    ensures CaptureSpec(f, s, t).form.exited
    ensures CaptureSpec(f, s, t).dialog == Some(if f.whiteTurn then WhiteWinsBlocked else BlackWinsBlocked)
  {
  }

  /** The server's verdict after a capture whose capturer, of the side to move, can capture again. */
  lemma ServerGoesOnAfterFollowUp(g: Grid, wt: bool, s: Square, t: Square)
    requires OnBoard(s) && OnBoard(t) && OwnPieceAt(g, SideToMove(wt), s)
    requires IsCaptureTarget(OwnersOf(g), At(g, s).value, s, t)
    requires var h := JumpResult(g, s, t);
      HasPiece(h, White) && HasPiece(h, Black) && CanCapture(OwnersOf(h), At(h, t).value, t)
    ensures GameStateModel.GameOverSpec(JumpResult(g, s, t), wt).None?
  {
    var h := JumpResult(g, s, t);
    JumpLands(g, s, t);
    assert OwnPieceAt(h, SideToMove(wt), t) && PieceCanMove(h, t);
    assert HasMoveFor(h, SideToMove(wt));
  }
}

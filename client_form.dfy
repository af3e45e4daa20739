/**
 * The network client's Swing form (`form.TabuleiroForm`).  It keeps a copy
 * of the board in `pecas`, selects pieces on clicks, sends `MOVE` lines to
 * the server and applies moves to its own board without checking them:
 * its own move as soon as it is sent, the opponent's when the server
 * reports it.  Flags follow the server's messages: `ehJogadorBranco` from
 * `START`, `minhavez` from `YOUR_TURN` and `MOVE_OK`.
 *
 * The socket's output is the log `sent` of lines written (`hasOut` says
 * whether the `PrintWriter` exists); one incoming line is one turn of the
 * `receberMensagens` loop.  The Swing event queue is taken to run each
 * posted action at once.
 */
module ClientForm {
  import opened JavaInt
  import opened Board
  import opened Protocol
  import Server

  const NotYourTurn := "Não é sua vez!"
  const NotYourPiece := "Esta peça não é sua!"
  const MustMoveCapturer := "Você deve mover a peça que pode capturar!"
  const AlreadyConnected := "Você já está conectado!"
  const EnterServerIp := "Digite o IP do servidor!"
  const EnterName := "Digite seu nome!"
  /** The dialog shown when the answer to `CONNECT` is not `CONNECTED`: the prefix and the exception's message. */
  const ConnectionFailed := "Não foi possível conectar ao servidor!\nFalha na conexão"

  /**
   * The client's state: the board, `vezBrancas`, the selection (-1 when
   * none), `conectado`, `ehJogadorBranco`, `minhavez`, and the output log.
   */
  datatype Client = Client(board: Grid, whiteTurn: bool, selR: int, selC: int,
                           connected: bool, isWhite: bool, myTurn: bool,
                           hasOut: bool, sent: seq<Line>)

  /** A line the client writes to the server. */
  datatype Line = ConnectLine(name: string) | MoveLine(r1: Int32, c1: Int32, r2: Int32, c2: Int32) | DisconnectLine

  /** The text of the line, built with the protocol's builders. */
  function Written(l: Line): string {
    match l
    case ConnectLine(name) => ConnectMessage(name)
    case MoveLine(r1, c1, r2, c2) => MoveMessage(r1, c1, r2, c2)
    case DisconnectLine => Disconnect
  }

  /** The state after a click, and the dialog it showed, if any. */
  datatype Clicked = Clicked(client: Client, dialog: Option<string>)

  /** The board after `aplicarMovimento`, and whether it stopped on an `ArrayIndexOutOfBoundsException`. */
  datatype Applied = Applied(board: Grid, crashed: bool)

  /** The state after `enviarMovimento`, and whether the exception of `aplicarMovimento` escaped it. */
  datatype Sent = Sent(client: Client, crashed: bool)

  // ---------------------------------------------------------------------
  // aplicarMovimento
  // ---------------------------------------------------------------------

  /**
   * The loop of `aplicarMovimento` from step `i` on: the square
   * `(r1 + i * sr, c1 + i * sc)`, in Java's wrapping arithmetic, is emptied
   * for each `i < n`; the first one off the board ends the move with the
   * squares before it already emptied.
   */
  function ClearPath(g: Grid, r1: Int32, c1: Int32, sr: int, sc: int, i: nat, n: Int32): (a: Applied)
    requires -1 <= sr <= 1 && -1 <= sc <= 1 && i >= 1
    decreases n - i
  {
    if i >= n then Applied(g, false)
    else
      var q := Square(Add32(r1, Step(0, sr, i)), Add32(c1, Step(0, sc, i)));
      if !OnBoard(q) then Applied(g, true)
      else ClearPath(SetCell(g, q, None), r1, c1, sr, sc, i + 1, n)
  }

  /**
   * `aplicarMovimento(r1, c1, r2, c2)`: for a move of length two or more
   * every square strictly between along the sign steps is emptied, whatever
   * it holds; then the origin's content is copied to the destination, the
   * origin emptied and a Man on its last row promoted.  Nothing is checked:
   * a coordinate off the board throws, leaving what was already done.
   */
  function ApplySpec(g: Grid, r1: Int32, c1: Int32, r2: Int32, c2: Int32): Applied {
    var dr, dc := Sub32(r2, r1), Sub32(c2, c1);
    var cleared := if Abs32(dr) >= 2 then ClearPath(g, r1, c1, Sign(dr), Sign(dc), 1, Abs32(dr)) else Applied(g, false);
    if cleared.crashed then cleared
    else if !InBounds(r1, c1) || !InBounds(r2, c2) then Applied(cleared.board, true)
    else Applied(MoveAndPromote(cleared.board, Square(r1, c1), Square(r2, c2)), false)
  }

  // ---------------------------------------------------------------------
  // Clicks and messages
  // ---------------------------------------------------------------------

  /** A click on the board: the square and any selection are on it. */
  predicate Clickable(c: Client, r: int, col: int) {
    InBounds(r, col) && (c.selR == -1 || InBounds(c.selR, c.selC))
  }

  /**
   * `enviarMovimento`: write the `MOVE` line and apply the move locally, if
   * the output exists; an exception thrown by `aplicarMovimento` leaves it
   * with the line written and the squares already emptied.
   */
  function SendSpec(c: Client, s: Square, t: Square): (e: Sent)
    requires OnBoard(s) && OnBoard(t)
    ensures e.client.whiteTurn == c.whiteTurn && e.client.selR == c.selR && e.client.selC == c.selC
    ensures e.client.connected == c.connected && e.client.isWhite == c.isWhite && e.client.myTurn == c.myTurn
    ensures !c.hasOut ==> e == Sent(c, false)
    ensures e.crashed ==> c.hasOut
  {
    if c.hasOut then
      var a := ApplySpec(c.board, s.row, s.col, t.row, t.col);
      Sent(c.(sent := c.sent + [MoveLine(s.row, s.col, t.row, t.col)], board := a.board), a.crashed)
    else Sent(c, false)
  }

  /**
   * `cliqueCasa(r, c)`: ignored unless connected and on this player's turn.
   * With nothing selected, a click on one's own piece selects it unless a
   * capture exists for the side `vezBrancas` names and this piece has none.
   * With a piece selected, the click sends the move from it and clears the
   * selection, unless `aplicarMovimento` threw: the exception then leaves
   * `cliqueCasa` before the selection is cleared.
   */
  ghost function ClickSpec(c: Client, r: int, col: int): (res: Clicked)
    requires Clickable(c, r, col)
    ensures res.client.whiteTurn == c.whiteTurn
    ensures res.client.connected == c.connected && res.client.isWhite == c.isWhite && res.client.myTurn == c.myTurn
  {
    var g := c.board;
    var sq := Square(r, col);
    if !c.connected || !c.myTurn then Clicked(c, if c.connected then Some(NotYourTurn) else None)
    else if c.selR == -1 && At(g, sq).Some? then
      var p := At(g, sq).value;
      if (p.color == White) == c.isWhite then
        if !SideCanCapture(g, SideToMove(c.whiteTurn)) || CanCapture(OwnersOf(g), p, sq) then
          Clicked(c.(selR := r, selC := col), None)
        else Clicked(c, Some(MustMoveCapturer))
      else Clicked(c, Some(NotYourPiece))
    else if c.selR != -1 then
      var e := SendSpec(c, Square(c.selR, c.selC), sq);
      Clicked(if e.crashed then e.client else e.client.(selR := -1, selC := -1), None)
    else Clicked(c, None)
  }

  /** `desconectar`: the flags drop and `DISCONNECT` is written if the output exists. */
  function Disconnected(c: Client): (d: Client)
    ensures !d.connected && !d.myTurn && d.board == c.board && d.whiteTurn == c.whiteTurn
  {
    c.(connected := false, myTurn := false, sent := if c.hasOut then c.sent + [DisconnectLine] else c.sent)
  }

  /** `OPPONENT_MOVE`: a payload of four integers is applied to the board; any other is ignored. */
  function OpponentMoved(c: Client, content: string): (d: Client)
    ensures d == c.(board := d.board)
    ensures |ParseMove(content)| != 4 ==> d == c
  {
    var mv := ParseMove(content);
    if |mv| == 4 then c.(board := ApplySpec(c.board, mv[0], mv[1], mv[2], mv[3]).board) else c
  }

  /**
   * One turn of the `receberMensagens` switch on a line read from the
   * server.  `WAIT`, `MOVE_INVALID`, `ERROR` and unknown types change no
   * state.
   */
  function ReceiveSpec(c: Client, message: string): (d: Client)
    ensures d.whiteTurn == c.whiteTurn
  {
    var ty := MessageType(Some(message));
    var content := MessageContent(Some(message));
    if ty == Start then c.(isWhite := content == "WHITE")
    else if ty == YourTurn then c.(myTurn := true)
    else if ty == MoveOk then c.(myTurn := false)
    else if ty == OpponentMove then OpponentMoved(c, content)
    else if ty == GameOver then Disconnected(c)
    else c
  }

  // ---------------------------------------------------------------------
  // Properties
  // ---------------------------------------------------------------------

  /** `q` lies on the diagonal from `s` in direction `d`, between `i` and `n` steps away, `n` excluded. */
  predicate OnRayBetween(s: Square, d: Dir, i: int, n: int, q: Square) {
    Diagonal(s, q) && DirTo(s, q) == d && i <= Dist(s, q) < n
  }

  /**
   * Along a ray that stays on the board the loop of `aplicarMovimento`
   * does not throw, and it empties exactly the squares from step `i` up to
   * step `n`, `n` excluded.
   */
  lemma {:induction false} ClearPathEmpties(g: Grid, s: Square, d: Dir, i: nat, n: Int32)
    requires OnBoard(s) && d in Directions && 1 <= i <= n && OnBoard(Ray(s, d, n))
    ensures var a := ClearPath(g, s.row, s.col, d.dr, d.dc, i, n);
      !a.crashed && forall r, c :: 0 <= r < 8 && 0 <= c < 8 ==>
        a.board[r][c] == if OnRayBetween(s, d, i, n, Square(r, c)) then None else g[r][c]
    decreases n - i
  {
    if i < n {
      var q := Ray(s, d, i);
      RayBetween(s, d, i, n);
      assert Square(Add32(s.row, Step(0, d.dr, i)), Add32(s.col, Step(0, d.dc, i))) == q;
      var h := SetCell(g, q, None);
      ClearPathEmpties(h, s, d, i + 1, n);
      RayDirection(s, d, i);
      forall r, c | 0 <= r < 8 && 0 <= c < 8
        ensures OnRayBetween(s, d, i, n, Square(r, c)) <==> Square(r, c) == q || OnRayBetween(s, d, i + 1, n, Square(r, c))
      {
        if OnRayBetween(s, d, i, n, Square(r, c)) {
          RayOnDiagonal(s, Square(r, c));
        }
      }
    }
  }

  /**
   * A diagonal move between squares of the board, whatever they hold:
   * nothing throws, the squares strictly between are emptied, the origin's
   * content (promoted) is on the destination, the origin is empty and every
   * other square is as it was.
   */
  lemma ApplyDiagonal(g: Grid, s: Square, t: Square)
    requires OnBoard(s) && OnBoard(t) && Diagonal(s, t)
    ensures var a := ApplySpec(g, s.row, s.col, t.row, t.col);
      !a.crashed && a.board[s.row][s.col].None? &&
      a.board[t.row][t.col] == (if At(g, s).Some? then Some(Promoted(At(g, s).value, t.row)) else None) &&
      forall r, c :: 0 <= r < 8 && 0 <= c < 8 && Square(r, c) != s && Square(r, c) != t ==>
        a.board[r][c] == if OnRayBetween(s, DirTo(s, t), 1, Dist(s, t), Square(r, c)) then None else g[r][c]
  {
    var d := DirTo(s, t);
    RayOnDiagonal(s, t);
    var h := if Dist(s, t) >= 2 then ClearPath(g, s.row, s.col, d.dr, d.dc, 1, Dist(s, t)).board else g;
    if Dist(s, t) >= 2 {
      ClearPathEmpties(g, s, d, 1, Dist(s, t));
    }
    assert At(h, s) == At(g, s) && ApplySpec(g, s.row, s.col, t.row, t.col) == Applied(MoveAndPromote(h, s, t), false);
    if At(h, s).Some? {
      MoveAndPromoteEffect(h, s, t);
    }
  }

  /**
   * `aplicarMovimento` is not idempotent: applying the same diagonal move a
   * second time moves the now empty origin onto the destination, so both
   * end up empty.
   */
  lemma ApplyTwiceEmpties(g: Grid, s: Square, t: Square)
    requires OnBoard(s) && OnBoard(t) && Diagonal(s, t)
    ensures var once := ApplySpec(g, s.row, s.col, t.row, t.col).board;
      var twice := ApplySpec(once, s.row, s.col, t.row, t.col);
      !twice.crashed && At(twice.board, s).None? && At(twice.board, t).None?
  {
    ApplyDiagonal(g, s, t);
    ApplyDiagonal(ApplySpec(g, s.row, s.col, t.row, t.col).board, s, t);
  }

  /**
   * The server sends `OPPONENT_MOVE` with an accepted move to both players
   * (`Server.AcceptedMoveBroadcast`), the mover included.  The mover's form
   * has already applied the move when it sent it, so applying it again
   * erases the piece it just moved from its own board.
   */
  lemma EchoErasesMover(c: Client, r: int, col: int)
    requires Clickable(c, r, col) && c.connected && c.myTurn && c.hasOut && c.selR != -1
    requires Diagonal(Square(c.selR, c.selC), Square(r, col)) && At(c.board, Square(c.selR, c.selC)).Some?
    ensures var sent := ClickSpec(c, r, col).client;
      var echoed := ReceiveSpec(sent, Server.Render(Server.OpponentMoveMsg(c.selR, c.selC, r, col)));
      At(sent.board, Square(r, col)).Some? && At(echoed.board, Square(r, col)).None? &&
      sent.sent == c.sent + [MoveLine(c.selR, c.selC, r, col)]
  {
    var s, t := Square(c.selR, c.selC), Square(r, col);
    var sent := ClickSpec(c, r, col).client;
    assert sent.board == ApplySpec(c.board, s.row, s.col, t.row, t.col).board;
    ReceiveOpponentMove(sent, c.selR, c.selC, r, col);
    ApplyDiagonal(c.board, s, t);
    ApplyTwiceEmpties(c.board, s, t);
  }

  /** An `OPPONENT_MOVE` from the server is applied to the board as it reads, and changes nothing else. */
  lemma ReceiveOpponentMove(c: Client, r1: Int32, c1: Int32, r2: Int32, c2: Int32)
    ensures ReceiveSpec(c, Server.Render(Server.OpponentMoveMsg(r1, c1, r2, c2))) ==
      c.(board := ApplySpec(c.board, r1, c1, r2, c2).board)
  {
    var line := OpponentMoveMessage(r1, c1, r2, c2);
    assert Server.Render(Server.OpponentMoveMsg(r1, c1, r2, c2)) == line;
    OpponentMoveLine(c, line);
    OpponentMovedParsed(c, MessageContent(Some(line)), r1, c1, r2, c2);
  }

  /** Any line typed `OPPONENT_MOVE` goes to the `OPPONENT_MOVE` branch. */
  lemma OpponentMoveLine(c: Client, line: string)
    requires MessageType(Some(line)) == OpponentMove
    ensures ReceiveSpec(c, line) == OpponentMoved(c, MessageContent(Some(line)))
  {
    assert OpponentMove[0] == 'O' && Start[0] == 'S' && YourTurn[0] == 'Y' && MoveOk[0] == 'M';
  }

  /** A payload that parses to four numbers is applied with those numbers. */
  lemma OpponentMovedParsed(c: Client, content: string, r1: Int32, c1: Int32, r2: Int32, c2: Int32)
    requires ParseMove(content) == [r1, c1, r2, c2]
    ensures OpponentMoved(c, content) == c.(board := ApplySpec(c.board, r1, c1, r2, c2).board)
  {
  }

  /** The move a click sends is the move the server plays: the line reads back as those four numbers. */
  lemma SentMoveIsPlayed(r1: Int32, c1: Int32, r2: Int32, c2: Int32)
    ensures Server.Classify(Some(Written(MoveLine(r1, c1, r2, c2)))) == Server.Play(r1, c1, r2, c2)
  {
    Server.ClassifyMoveMessage(r1, c1, r2, c2);
  }

  /**
   * A click changes the board or writes a line only when the form is
   * connected, it is this player's turn and the output exists; a piece is
   * selected only when it has the player's colour.
   */
  lemma ClickGuards(c: Client, r: int, col: int)
    requires Clickable(c, r, col)
    ensures var res := ClickSpec(c, r, col).client;
      (res.board != c.board || res.sent != c.sent ==> c.connected && c.myTurn && c.hasOut && c.selR != -1) &&
      (c.selR == -1 && res.selR != -1 ==>
        res.selR == r && res.selC == col && At(c.board, Square(r, col)).Some? &&
        (At(c.board, Square(r, col)).value.color == White) == c.isWhite)
  {
  }

  /**
   * A click on the selected piece sends the move from that square to
   * itself and applies it locally: the piece disappears from the form,
   * and nothing else changes on its board.
   */
  lemma ReselectErasesPiece(c: Client)
    requires c.connected && c.myTurn && c.hasOut && InBounds(c.selR, c.selC)
    ensures var res := ClickSpec(c, c.selR, c.selC).client;
      At(res.board, Square(c.selR, c.selC)).None? && res.sent == c.sent + [MoveLine(c.selR, c.selC, c.selR, c.selC)] &&
      res.selR == -1 &&
      forall i, j :: 0 <= i < 8 && 0 <= j < 8 && Square(i, j) != Square(c.selR, c.selC) ==> res.board[i][j] == c.board[i][j]
  {
    var s := Square(c.selR, c.selC);
    assert Sub32(s.row, s.row) == 0 && Abs32(0) == 0;
    assert ApplySpec(c.board, s.row, s.col, s.row, s.col).board == MoveAndPromote(c.board, s, s);
  }

  /**
   * A move from (1, 6) to (7, 7) is not diagonal: `aplicarMovimento` steps
   * one column per row, empties (2, 7) and throws on column 8.  The
   * selection survives the click, the `MOVE` line has been written, and the
   * only square changed is (2, 7).
   */
  lemma OffBoardPathKeepsSelection(c: Client)
    requires c.connected && c.myTurn && c.hasOut && c.selR == 1 && c.selC == 6
    ensures var res := ClickSpec(c, 7, 7);
      res.client == c.(board := SetCell(c.board, Square(2, 7), None), sent := c.sent + [MoveLine(1, 6, 7, 7)]) &&
      res.dialog.None?
  {
    assert Sub32(7, 1) == 6 && Sub32(7, 6) == 1 && Abs32(6) == 6;
    var h := SetCell(c.board, Square(2, 7), None);
    assert Add32(1, Step(0, 1, 1)) == 2 && Add32(6, Step(0, 1, 1)) == 7;
    assert Add32(6, Step(0, 1, 2)) == 8;
    assert ClearPath(h, 1, 6, 1, 1, 2, 6) == Applied(h, true);
    assert ApplySpec(c.board, 1, 6, 7, 7) == Applied(h, true);
  }

  /**
   * `vezBrancas` is never changed by the network form: no click and no
   * message touches it, so the mandatory-capture test always asks about
   * White's captures.  A Black player may therefore select a piece that
   * cannot capture while another of theirs can.
   */
  lemma BlackMayIgnoreCapture(c: Client, r: int, col: int)
    requires Clickable(c, r, col) && c.connected && c.myTurn && c.selR == -1 && c.whiteTurn && !c.isWhite
    requires At(c.board, Square(r, col)).Some? && At(c.board, Square(r, col)).value.color == Black
    requires !SideCanCapture(c.board, White)
    ensures ClickSpec(c, r, col) == Clicked(c.(selR := r, selC := col), None)
  {
  }

  /**
   * What each message the server sends does to `minhavez`: `YOUR_TURN`
   * sets it and `GAME_OVER` clears it; the server never sends `MOVE_OK`,
   * so after a move the form still takes it to be its turn.
   */
  lemma TurnFlagFromServer(c: Client, m: Server.Message)
    ensures ReceiveSpec(c, Server.Render(m)).myTurn == if m.YourTurnMsg? then true else if m.GameOverMsg? then false else c.myTurn
  {
    Server.ReadBack(m);
    var ty := MessageType(Some(Server.Render(m)));
    match m
    case YourTurnMsg =>
    case GameOverMsg(_) =>
    case OpponentMoveMsg(_, _, _, _) =>
    case StartMsg(_) =>
    case _ =>
      assert ty != Start && ty != YourTurn && ty != MoveOk && ty != OpponentMove && ty != GameOver;
  }

  /** `START|WHITE` makes the form the White player and `START|BLACK` the Black one. */
  lemma StartAssignsColour(c: Client)
    ensures ReceiveSpec(c, Server.Render(Server.StartMsg("WHITE"))).isWhite
    ensures !ReceiveSpec(c, Server.Render(Server.StartMsg("BLACK"))).isWhite
  {
    Server.ReadBack(Server.StartMsg("WHITE"));
    Server.ReadBack(Server.StartMsg("BLACK"));
  }

  // ---------------------------------------------------------------------
  // The form
  // ---------------------------------------------------------------------

  class ClientBoard {
    var pecas: array2<Option<Piece>>
    ghost var cells: Grid
    var vezBrancas: bool
    var selecR: int
    var selecC: int
    var conectado: bool
    var ehJogadorBranco: bool
    var minhavez: bool
    var hasOut: bool
    var sent: seq<Line>

    ghost predicate Valid()
      reads this, pecas
    {
      Mirrors(pecas, cells) && (selecR == -1 || InBounds(selecR, selecC))
    }

    ghost function State(): Client
      reads this
    {
      Client(cells, vezBrancas, selecR, selecC, conectado, ehJogadorBranco, minhavez, hasOut, sent)
    }

    /** A new window: the standard layout, not connected, nothing selected; `ehJogadorBranco` is Java's default `false`. */
    constructor()
      ensures Valid() && fresh(pecas)
      ensures State() == Client(InitialGrid(), true, -1, -1, false, false, false, false, [])
    {
      pecas := new Option<Piece>[8, 8];
      cells := InitialGrid();
      vezBrancas := true;
      selecR, selecC := -1, -1;
      conectado, ehJogadorBranco, minhavez := false, false, false;
      hasOut, sent := false, [];
      new;
      InitializeBoard(pecas);
    }

    /**
     * `conectarAoServidor` with the text fields' contents, once the socket
     * has opened: a form already connected, or an empty field, only shows a
     * dialog; otherwise the `CONNECT` line is written and the form is
     * connected when the reply is `CONNECTED`.  Any other reply, or none,
     * throws `IOException("Falha na conexão")`, whose handler shows the
     * failure dialog.
     */
    method Conectar(serverIp: string, nomeJogador: string, response: Option<string>) returns (dialog: Option<string>)
      modifies this`conectado, this`hasOut, this`sent
      ensures old(conectado) ==> dialog == Some(AlreadyConnected) && unchanged(this)
      ensures !old(conectado) && serverIp == [] ==> dialog == Some(EnterServerIp) && unchanged(this)
      ensures !old(conectado) && serverIp != [] && nomeJogador == [] ==> dialog == Some(EnterName) && unchanged(this)
      ensures !old(conectado) && serverIp != [] && nomeJogador != [] ==>
        hasOut && sent == old(sent) + [ConnectLine(nomeJogador)] && conectado == (response == Some(Connected)) &&
        dialog == (if response == Some(Connected) then None else Some(ConnectionFailed))
    {
      if conectado {
        return Some(AlreadyConnected);
      }
      if serverIp == [] {
        return Some(EnterServerIp);
      }
      if nomeJogador == [] {
        return Some(EnterName);
      }
      hasOut := true;
      sent := sent + [ConnectLine(nomeJogador)];
      if response.Some? && response.value == Connected {
        conectado := true;
        return None;
      }
      return Some(ConnectionFailed);
    }

    /** `cliqueCasa(r, c)`. */
    method CliqueCasa(r: int, c: int) returns (dialog: Option<string>)
      requires Valid() && Clickable(State(), r, c)
      modifies pecas, this`cells, this`selecR, this`selecC, this`sent
      ensures Valid()
      ensures Clicked(State(), dialog) == ClickSpec(old(State()), r, c)
    {
      if !conectado || !minhavez {
        if conectado {
          return Some(NotYourTurn);
        }
        return None;
      }
      if selecR == -1 && pecas[r, c].Some? {
        dialog := Select(r, c);
        return;
      }
      dialog := None;
      if selecR != -1 {
        var crashed := EnviarMovimento(Square(selecR, selecC), Square(r, c));
        if crashed {
          return;
        }
        selecR, selecC := -1, -1;
      }
    }

    /** The selection branch of `cliqueCasa`. */
    method Select(r: int, c: int) returns (dialog: Option<string>)
      requires Valid() && InBounds(r, c) && At(cells, Square(r, c)).Some?
      modifies this`selecR, this`selecC
      ensures Valid()
      ensures var k := old(State()); var p := At(cells, Square(r, c)).value;
        Clicked(State(), dialog) ==
          if (p.color == White) == ehJogadorBranco then
            if !SideCanCapture(cells, SideToMove(vezBrancas)) || CanCapture(OwnersOf(cells), p, Square(r, c)) then
              Clicked(k.(selR := r, selC := c), None)
            else Clicked(k, Some(MustMoveCapturer))
          else Clicked(k, Some(NotYourPiece))
    {
      var p := pecas[r, c].value;
      var ehBranca := p.color == White;
      if ehBranca != ehJogadorBranco {
        return Some(NotYourPiece);
      }
      var todasCapturas := AllCaptures(pecas, cells, SideToMove(vezBrancas));
      var deveCapturar := |todasCapturas| > 0;
      var capturasDaPeca := CaptureMovements(pecas, cells, p, Square(r, c));
      var estaPecaPodeCapturar := |capturasDaPeca| > 0;
      if estaPecaPodeCapturar {
        assert IsCaptureTarget(OwnersOf(cells), p, Square(r, c), capturasDaPeca[0]);
      }
      if !deveCapturar || estaPecaPodeCapturar {
        selecR, selecC := r, c;
        return None;
      }
      return Some(MustMoveCapturer);
    }

    /** `enviarMovimento(r1, c1, r2, c2)`; `crashed` when `aplicarMovimento` threw. */
    method EnviarMovimento(s: Square, t: Square) returns (crashed: bool)
      requires Valid() && OnBoard(s) && OnBoard(t)
      modifies pecas, this`cells, this`sent
      ensures Valid()
      ensures Sent(State(), crashed) == SendSpec(old(State()), s, t)
    {
      crashed := false;
      if hasOut {
        sent := sent + [MoveLine(s.row, s.col, t.row, t.col)];
        crashed := AplicarMovimento(s.row, s.col, t.row, t.col);
      }
    }

    /** `aplicarMovimento(r1, c1, r2, c2)`; `crashed` when it threw. */
    method AplicarMovimento(r1: Int32, c1: Int32, r2: Int32, c2: Int32) returns (crashed: bool)
      requires Valid()
      modifies pecas, this`cells
      ensures Valid()
      ensures Applied(cells, crashed) == ApplySpec(old(cells), r1, c1, r2, c2)
    {
      var dr, dc := Sub32(r2, r1), Sub32(c2, c1);
      if Abs32(dr) >= 2 {
        crashed := ClearPathLoop(r1, c1, Sign(dr), Sign(dc), Abs32(dr));
        if crashed {
          return;
        }
      }
      if !InBounds(r1, c1) || !InBounds(r2, c2) {
        return true;
      }
      var s, t := Square(r1, c1), Square(r2, c2);
      MovePiece(pecas, cells, s, t);
      cells := MoveAndPromote(cells, s, t);
      crashed := false;
    }

    /** The loop of `aplicarMovimento` that empties the squares strictly between. */
    method ClearPathLoop(r1: Int32, c1: Int32, stepR: int, stepC: int, n: Int32) returns (crashed: bool)
      requires Valid() && -1 <= stepR <= 1 && -1 <= stepC <= 1
      modifies pecas, this`cells
      ensures Valid()
      ensures Applied(cells, crashed) == ClearPath(old(cells), r1, c1, stepR, stepC, 1, n)
    {
      var i: nat := 1;
      while i < n
        invariant Valid() && i >= 1
        invariant ClearPath(cells, r1, c1, stepR, stepC, i, n) == ClearPath(old(cells), r1, c1, stepR, stepC, 1, n)
        decreases n - i
      {
        var rr, cc := Add32(r1, Step(0, stepR, i)), Add32(c1, Step(0, stepC, i));
        if !InBounds(rr, cc) {
          return true;
        }
        pecas[rr, cc] := None;
        cells := SetCell(cells, Square(rr, cc), None);
        i := i + 1;
      }
      return false;
    }

    /** One turn of the `receberMensagens` switch. */
    method ReceberMensagem(message: string)
      requires Valid()
      modifies pecas, this`cells, this`ehJogadorBranco, this`minhavez, this`conectado, this`sent
      ensures Valid()
      ensures State() == ReceiveSpec(old(State()), message)
    {
      var msgType := MessageType(Some(message));
      var content := MessageContent(Some(message));
      if msgType == Start {
        ehJogadorBranco := content == "WHITE";
      } else if msgType == YourTurn {
        minhavez := true;
      } else if msgType == MoveOk {
        minhavez := false;
      } else if msgType == OpponentMove {
        ReceberJogada(content);
      } else if msgType == GameOver {
        Desconectar();
      }
    }

    /** The `OPPONENT_MOVE` case of `receberMensagens`. */
    method ReceberJogada(content: string)
      requires Valid()
      modifies pecas, this`cells
      ensures Valid()
      ensures State() == OpponentMoved(old(State()), content)
    {
      var move := ParseMove(content);
      if |move| == 4 {
        var crashed := AplicarMovimento(move[0], move[1], move[2], move[3]);
      }
    }

    /** `desconectar`, for its effect on the flags and the output. */
    method Desconectar()
      modifies this`conectado, this`minhavez, this`sent
      ensures conectado == false && minhavez == false
      ensures sent == if hasOut then old(sent) + [DisconnectLine] else old(sent)
    {
      conectado := false;
      minhavez := false;
      if hasOut {
        sent := sent + [DisconnectLine];
      }
    }
  }
}

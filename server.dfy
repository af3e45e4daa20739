/**
 * The network server (`server.CheckersServer`): pairing of incoming clients
 * through the waiting-room queue (`handleClient`) and the session loop of a
 * room (`GameRoom.startGame`).
 *
 * A connection is abstracted to the lines the client will send, in order
 * (reading past the last one gives Java's `null`), and a log of the lines
 * the server sends it.
 */
module Server {
  import opened JavaInt
  import opened Board
  import opened GameStateModel
  import opened Protocol

  /** A line the server sends, as the protocol value it renders. */
  datatype Message =
    | ConnectedMsg
    | WaitMsg
    | StartMsg(color: string)
    | YourTurnMsg
    | MoveInvalidMsg
    | OpponentMoveMsg(r1: Int32, c1: Int32, r2: Int32, c2: Int32)
    | GameOverMsg(text: string)
    | ErrorMsg(text: string)

  /** The message's type field on the wire. */
  function TypeOf(m: Message): string {
    match m
    case ConnectedMsg => Connected
    case WaitMsg => WaitForPlayer
    case StartMsg(_) => Start
    case YourTurnMsg => YourTurn
    case MoveInvalidMsg => MoveInvalid
    case OpponentMoveMsg(_, _, _, _) => OpponentMove
    case GameOverMsg(_) => GameOver
    case ErrorMsg(_) => Error
  }

  /** The line written to the socket, built with the protocol's builders. */
  function Render(m: Message): string {
    match m
    case ConnectedMsg => Connected
    case WaitMsg => WaitForPlayer
    case StartMsg(color) => StartMessage(color)
    case YourTurnMsg => YourTurn
    case MoveInvalidMsg => MoveInvalid
    case OpponentMoveMsg(r1, c1, r2, c2) => OpponentMoveMessage(r1, c1, r2, c2)
    case GameOverMsg(text) => GameOverMessage(text)
    case ErrorMsg(text) => ErrorMessage(text)
  }

  /**
   * What the receiving client reads back from a line: its type, and the
   * text or the move it carries.
   */
  lemma ReadBack(m: Message)
    ensures MessageType(Some(Render(m))) == TypeOf(m)
    ensures m.StartMsg? ==> MessageContent(Some(Render(m))) == m.color
    ensures m.GameOverMsg? || m.ErrorMsg? ==> MessageContent(Some(Render(m))) == m.text
    ensures m.OpponentMoveMsg? ==> ParseMove(MessageContent(Some(Render(m)))) == [m.r1, m.c1, m.r2, m.c2]
  {
    match m
    case ConnectedMsg => BareMessage(Some(Connected));
    case WaitMsg => BareMessage(Some(WaitForPlayer));
    case YourTurnMsg => BareMessage(Some(YourTurn));
    case MoveInvalidMsg => BareMessage(Some(MoveInvalid));
    case _ =>
  }

  // ---------------------------------------------------------------------
  // Pairing (handleClient)
  // ---------------------------------------------------------------------

  /** A room in the queue: its number and the name of the player waiting in it. */
  datatype WaitingRoom = WaitingRoom(roomId: Int32, player1Name: string)

  /** What became of a connecting client. */
  datatype Admission =
    | Refused
    | Waiting(room: WaitingRoom)
    | Paired(room: WaitingRoom, player2Name: string)

  datatype LobbyState = LobbyState(waitingRooms: seq<WaitingRoom>, gameCounter: Int32)

  /** The new lobby, the lines sent to the client, and its admission. */
  datatype Handled = Handled(lobby: LobbyState, replies: seq<Message>, admission: Admission)

  const InvalidConnection: string := "Mensagem de conexão inválida"

  /**
   * The reference definition of `handleClient`, given the client's first
   * line: a line that is missing or does not start with `CONNECT` is
   * answered with an error; otherwise the client is acknowledged and either
   * opens room `++gameCounter` (with Java's wrap-around) or joins the room
   * at the head of the queue.
   */
  function HandleSpec(ls: LobbyState, connectMsg: Option<string>): Handled {
    if connectMsg.None? || !(Connect <= connectMsg.value) then
      Handled(ls, [ErrorMsg(InvalidConnection)], Refused)
    else
      var name := MessageContent(connectMsg);
      if ls.waitingRooms == [] then
        var id := Add32(ls.gameCounter, 1);
        var room := WaitingRoom(id, name);
        Handled(LobbyState([room], id), [ConnectedMsg, WaitMsg], Waiting(room))
      else
        Handled(LobbyState(ls.waitingRooms[1..], ls.gameCounter), [ConnectedMsg], Paired(ls.waitingRooms[0], name))
  }

  /**
   * Clients are handled one at a time, so the queue holds at most one room,
   * and that room is the one numbered last.
   */
  ghost predicate LobbyInvariant(ls: LobbyState) {
    |ls.waitingRooms| <= 1 && forall r :: r in ls.waitingRooms ==> r.roomId == ls.gameCounter
  }

  class Lobby {
    var waitingRooms: seq<WaitingRoom>
    var gameCounter: Int32

    ghost function State(): LobbyState
      reads this
    {
      LobbyState(waitingRooms, gameCounter)
    }

    ghost predicate Valid()
      reads this
    {
      LobbyInvariant(State())
    }

    /** `new CheckersServer()`: an empty queue, no room numbered yet. */
    constructor()
      ensures Valid() && waitingRooms == [] && gameCounter == 0
    {
      waitingRooms := [];
      gameCounter := 0;
    }

    /** `handleClient`, from the first line the client sends. */
    method HandleClient(connectMsg: Option<string>) returns (replies: seq<Message>, admission: Admission)
      requires Valid()
      modifies this
      ensures Valid()
      ensures Handled(State(), replies, admission) == HandleSpec(old(State()), connectMsg)
    {
      if connectMsg.None? || !(Connect <= connectMsg.value) {
        replies := [ErrorMsg(InvalidConnection)];
        admission := Refused;
        return;
      }
      var playerName := MessageContent(connectMsg);
      replies := [ConnectedMsg];
      if waitingRooms == [] {
        gameCounter := Add32(gameCounter, 1);
        var room := WaitingRoom(gameCounter, playerName);
        replies := replies + [WaitMsg];
        waitingRooms := waitingRooms + [room];
        admission := Waiting(room);
      } else {
        var room := waitingRooms[0];
        waitingRooms := waitingRooms[1..];
        admission := Paired(room, playerName);
      }
    }
  }

  /** Handling a client keeps the queue at most one room long. */
  lemma HandlingKeepsLobby(ls: LobbyState, connectMsg: Option<string>)
    requires LobbyInvariant(ls)
    ensures LobbyInvariant(HandleSpec(ls, connectMsg).lobby)
  {
  }

  /** A refused client leaves the lobby as it was and gets only the error line. */
  lemma RefusedClient(ls: LobbyState, connectMsg: Option<string>)
    requires connectMsg.None? || !(Connect <= connectMsg.value)
    ensures HandleSpec(ls, connectMsg) == Handled(ls, [ErrorMsg(InvalidConnection)], Refused)
  {
  }

  /**
   * Two well-formed clients arriving at an empty lobby: the first waits in
   * a new room, the second is paired into that same room with the first
   * one's name as player 1, and the lobby is empty again.
   */
  lemma PairingOfTwo(ls: LobbyState, name1: string, name2: string)
    requires ls.waitingRooms == []
    ensures var h1 := HandleSpec(ls, Some(ConnectMessage(name1)));
      var h2 := HandleSpec(h1.lobby, Some(ConnectMessage(name2)));
      h1.replies == [ConnectedMsg, WaitMsg] &&
      h1.admission == Waiting(WaitingRoom(Add32(ls.gameCounter, 1), name1)) &&
      h2.replies == [ConnectedMsg] &&
      h2.admission == Paired(WaitingRoom(Add32(ls.gameCounter, 1), name1), name2) &&
      h2.lobby == LobbyState([], Add32(ls.gameCounter, 1))
  {
    var m1, m2 := ConnectMessage(name1), ConnectMessage(name2);
    assert Connect <= m1 by { TypedMessage(Connect, name1); }
    assert Connect <= m2 by { TypedMessage(Connect, name2); }
  }

  /** `++gameCounter` is a Java `int` increment: after room 2147483647 comes room -2147483648. */
  lemma RoomNumberWraps(name: string)
    ensures HandleSpec(LobbyState([], MaxInt), Some(ConnectMessage(name))).admission ==
      Waiting(WaitingRoom(MinInt, name))
  {
    assert Connect <= ConnectMessage(name) by { TypedMessage(Connect, name); }
  }

  // ---------------------------------------------------------------------
  // The session loop (GameRoom.startGame)
  // ---------------------------------------------------------------------

  /**
   * Everything the loop of `startGame` reads or writes: the rule engine's
   * board and side to move, the loop's two flags, whether the loop was left
   * by an exception other than `IOException` (`crashed`), the lines each
   * player has still to send, and the messages each has been sent.
   */
  datatype RoomState = RoomState(
    board: Grid, whiteTurn: bool,
    player1Turn: bool, gameRunning: bool, crashed: bool,
    in1: seq<string>, in2: seq<string>,
    out1: seq<Message>, out2: seq<Message>)

  /** How the loop reads a line from the current player. */
  datatype Request =
    | Leave                                            // `null`, or a line starting with DISCONNECT
    | Play(r1: Int32, c1: Int32, r2: Int32, c2: Int32)  // a MOVE line with four numbers
    | BadPlay                                          // a MOVE line without them
    | Ignored                                          // anything else

  /** What the rule engine answers to a move: `executeMove`, then `checkGameOver` on the new state. */
  datatype EngineReply = EngineReply(status: MoveStatus, board: Grid, whiteTurn: bool, gameOver: Option<string>)

  const OpponentLeft: string := "Oponente desconectou"
  const BadMoveFormat: string := "Formato de movimento inválido"

  /** The three tests the loop makes on a line, in order. */
  function Classify(message: Option<string>): (q: Request)
    ensures q == Leave <==> message.None? || Disconnect <= message.value
    ensures q.Play? ==> Move <= message.value && ParseMove(MessageContent(message)) == [q.r1, q.c1, q.r2, q.c2]
    ensures q == BadPlay <==>
      message.Some? && !(Disconnect <= message.value) && Move <= message.value && |ParseMove(MessageContent(message))| != 4
    ensures q == Ignored <==> message.Some? && !(Disconnect <= message.value) && !(Move <= message.value)
  {
    if message.None? || Disconnect <= message.value then Leave
    else if Move <= message.value then
      var move := ParseMove(MessageContent(message));
      if |move| == 4 then Play(move[0], move[1], move[2], move[3]) else BadPlay
    else Ignored
  }

  /** A client's `MOVE` line is read as the move it carries. */
  lemma ClassifyMoveMessage(r1: Int32, c1: Int32, r2: Int32, c2: Int32)
    ensures Classify(Some(MoveMessage(r1, c1, r2, c2))) == Play(r1, c1, r2, c2)
  {
    var m := MoveMessage(r1, c1, r2, c2);
    MoveLineShape(r1, c1, r2, c2);
    ClassifyMoveLine(m, r1, c1, r2, c2);
  }

  lemma MoveLineShape(r1: Int32, c1: Int32, r2: Int32, c2: Int32)
    ensures Move <= MoveMessage(r1, c1, r2, c2) && !(Disconnect <= MoveMessage(r1, c1, r2, c2))
  {
    var m := MoveMessage(r1, c1, r2, c2);
    assert m == Move + [Separator] + MovePayload(r1, c1, r2, c2);
    assert m[0] == 'M' && Disconnect[0] == 'D';
  }

  lemma ClassifyMoveLine(m: string, r1: Int32, c1: Int32, r2: Int32, c2: Int32)
    requires Move <= m && !(Disconnect <= m) && ParseMove(MessageContent(Some(m))) == [r1, c1, r2, c2]
    ensures Classify(Some(m)) == Play(r1, c1, r2, c2)
  {
  }

  /** Lines still to be read plus one while the loop runs: it drops on every iteration. */
  function Pending(st: RoomState): nat {
    |st.in1| + |st.in2| + if st.gameRunning then 1 else 0
  }

  /** Appends a message to player 1's log or to player 2's. */
  function SendTo(st: RoomState, toPlayer1: bool, m: Message): (r: RoomState)
    ensures r.in1 == st.in1 && r.in2 == st.in2 && r.gameRunning == st.gameRunning
    ensures st.out1 <= r.out1 && st.out2 <= r.out2
  {
    if toPlayer1 then st.(out1 := st.out1 + [m]) else st.(out2 := st.out2 + [m])
  }

  /** The line at the head of the current player's input (`null` once it is exhausted). */
  function CurrentLine(st: RoomState): Option<string> {
    var input := if st.player1Turn then st.in1 else st.in2;
    if input == [] then None else Some(input[0])
  }

  /** The state once the current player's line has been read. */
  function Consumed(st: RoomState): RoomState {
    if st.player1Turn then st.(in1 := if st.in1 == [] then [] else st.in1[1..])
    else st.(in2 := if st.in2 == [] then [] else st.in2[1..])
  }

  /** The prologue of `startGame`: colours to both players, the first turn to player 1. */
  function Opened(st: RoomState): (r: RoomState)
    ensures r.out1 == st.out1 + [StartMsg("WHITE"), YourTurnMsg]
    ensures r.out2 == st.out2 + [StartMsg("BLACK")]
    ensures r.player1Turn && r.gameRunning
    ensures r.board == st.board && r.whiteTurn == st.whiteTurn && r.in1 == st.in1 && r.in2 == st.in2
  {
    var st1 := SendTo(SendTo(st, true, StartMsg("WHITE")), false, StartMsg("BLACK"));
    SendTo(st1, true, YourTurnMsg).(gameRunning := true, player1Turn := true)
  }

  /**
   * The rule engine's answer to a request that is a move: the result of
   * `executeMove`, and what `checkGameOver` then says.
   */
  ghost function Reply(st: RoomState, q: Request): EngineReply {
    match q
    case Play(r1, c1, r2, c2) =>
      var res := ExecuteMoveSpec(st.board, st.whiteTurn, r1, c1, r2, c2);
      EngineReply(res.status, res.board, res.whiteTurn, GameOverSpec(res.board, res.whiteTurn))
    case _ => EngineReply(Rejected, st.board, st.whiteTurn, None)
  }

  /** The rule engine's answer read off the outcome of `executeMove`; a refused move changes nothing. */
  lemma ReplyOfOutcome(st: RoomState, q: Request, status: MoveStatus, board: Grid, whiteTurn: bool)
    requires q.Play?
    requires Outcome(status, board, whiteTurn) == ExecuteMoveSpec(st.board, st.whiteTurn, q.r1, q.c1, q.r2, q.c2)
    ensures Reply(st, q) == EngineReply(status, board, whiteTurn, GameOverSpec(board, whiteTurn))
    ensures status != Accepted ==> board == st.board && whiteTurn == st.whiteTurn
  {
    RefusedMoveChangesNothing(st.board, st.whiteTurn, q.r1, q.c1, q.r2, q.c2);
  }

  /** The iteration after an accepted move, given what `checkGameOver` said. */
  function AfterAccepted(st: RoomState, mover: bool, moveMsg: Message, gameOver: Option<string>): (r: RoomState)
    ensures r.in1 == st.in1 && r.in2 == st.in2
    ensures st.out1 <= r.out1 && st.out2 <= r.out2
  {
    Concluded(SendTo(SendTo(st, true, moveMsg), false, moveMsg), mover, gameOver)
  }

  /** After the move went to both players: the result to both, or the turn to the other player. */
  function Concluded(st: RoomState, mover: bool, gameOver: Option<string>): (r: RoomState)
    ensures r.in1 == st.in1 && r.in2 == st.in2
    ensures st.out1 <= r.out1 && st.out2 <= r.out2
  {
    match gameOver
    case Some(msg) => SendTo(SendTo(st, true, GameOverMsg(msg)), false, GameOverMsg(msg)).(gameRunning := false)
    case None => SendTo(st.(player1Turn := !mover), !mover, YourTurnMsg)
  }

  /**
   * One iteration of the loop of `startGame`, given the request the
   * current player's line makes and what the rule engine answers if it is
   * a move.  Each iteration reads a line or ends the game, so the loop
   * terminates.
   */
  function StepWith(st: RoomState, q: Request, reply: EngineReply): (r: RoomState)
    requires st.gameRunning
    ensures Pending(r) < Pending(st) || (q != Leave && CurrentLine(st).None?)
    ensures r.in1 == (if st.player1Turn && st.in1 != [] then st.in1[1..] else st.in1)
    ensures r.in2 == (if !st.player1Turn && st.in2 != [] then st.in2[1..] else st.in2)
    ensures st.out1 <= r.out1 && st.out2 <= r.out2
  {
    var mover := st.player1Turn;
    var st1 := Consumed(st);
    match q
    case Leave => SendTo(st1, !mover, GameOverMsg(OpponentLeft)).(gameRunning := false)
    case BadPlay => SendTo(st1, mover, ErrorMsg(BadMoveFormat))
    case Ignored => st1
    case Play(_, _, _, _) => AfterPlay(st1, q, reply)
  }

  /** The iteration after a well-formed move, given the rule engine's answer. */
  function AfterPlay(st: RoomState, q: Request, reply: EngineReply): (r: RoomState)
    requires q.Play?
    ensures r.in1 == st.in1 && r.in2 == st.in2
    ensures st.out1 <= r.out1 && st.out2 <= r.out2
  {
    match reply.status
    case IndexOutOfBounds => st.(gameRunning := false, crashed := true)
    case Rejected => SendTo(st, st.player1Turn, MoveInvalidMsg)
    case Accepted =>
      AfterAccepted(st.(board := reply.board, whiteTurn := reply.whiteTurn), st.player1Turn,
        OpponentMoveMsg(q.r1, q.c1, q.r2, q.c2), reply.gameOver)
  }

  /** One iteration, with the current player's actual line and the rule engine's actual answer. */
  ghost function StepSpec(st: RoomState): (r: RoomState)
    requires st.gameRunning
    ensures Pending(r) < Pending(st)
    ensures st.out1 <= r.out1 && st.out2 <= r.out2
  {
    var q := Classify(CurrentLine(st));
    StepWith(st, q, Reply(st, q))
  }

  /** The whole loop: iterations until `gameRunning` is false; the logs only grow. */
  ghost function RunSpec(st: RoomState): (r: RoomState)
    ensures !r.gameRunning
    ensures st.out1 <= r.out1 && st.out2 <= r.out2
    decreases Pending(st)
  {
    if !st.gameRunning then st else RunSpec(StepSpec(st))
  }

  class GameRoom {
    const roomId: Int32
    const gameState: GameState
    var player1In: seq<string>
    var player2In: seq<string>
    var player1Out: seq<Message>
    var player2Out: seq<Message>
    var player1Turn: bool
    var gameRunning: bool
    var crashed: bool

    ghost predicate Valid()
      reads this, gameState, gameState.board
    {
      gameState.Valid()
    }

    ghost function State(): RoomState
      reads this, gameState
    {
      RoomState(gameState.cells, gameState.whiteTurn, player1Turn, gameRunning, crashed,
        player1In, player2In, player1Out, player2Out)
    }

    /**
     * A room numbered `roomId` after `setPlayer1` and `setPlayer2`, with a
     * fresh `GameState` and the lines each player is going to send.
     */
    constructor(roomId: Int32, player1In: seq<string>, player2In: seq<string>)
      ensures Valid() && fresh(gameState) && fresh(gameState.board)
      ensures State() == RoomState(InitialGrid(), true, true, false, false, player1In, player2In, [], [])
    {
      this.roomId := roomId;
      this.gameState := new GameState();
      this.player1In := player1In;
      this.player2In := player2In;
      player1Out := [];
      player2Out := [];
      player1Turn := true;
      gameRunning := false;
      crashed := false;
    }

    /** `startGame`: the prologue, then the loop until the game stops. */
    method StartGame()
      requires Valid()
      modifies this, gameState, gameState.board
      ensures Valid()
      ensures State() == RunSpec(Opened(old(State())))
    {
      Send(true, StartMsg("WHITE"));
      Send(false, StartMsg("BLACK"));
      Send(true, YourTurnMsg);
      gameRunning := true;
      player1Turn := true;
      while gameRunning
        invariant Valid() && gameState.board == old(gameState.board)
        invariant RunSpec(State()) == RunSpec(Opened(old(State())))
        decreases Pending(State())
      {
        Step();
      }
    }

    /** Writes a message to one player. */
    method Send(toPlayer1: bool, m: Message)
      modifies this
      ensures State() == SendTo(old(State()), toPlayer1, m)
    {
      if toPlayer1 {
        player1Out := player1Out + [m];
      } else {
        player2Out := player2Out + [m];
      }
    }

    /** Reads the current player's next line. */
    method ReadLine() returns (message: Option<string>)
      modifies this
      ensures message == CurrentLine(old(State())) && State() == Consumed(old(State()))
    {
      if player1Turn {
        message := if player1In == [] then None else Some(player1In[0]);
        player1In := if player1In == [] then [] else player1In[1..];
      } else {
        message := if player2In == [] then None else Some(player2In[0]);
        player2In := if player2In == [] then [] else player2In[1..];
      }
    }

    /** One iteration of the loop of `startGame`. */
    method Step()
      requires Valid() && gameRunning
      modifies this, gameState, gameState.board
      ensures Valid() && gameState.board == old(gameState.board)
      ensures State() == StepSpec(old(State()))
    {
      ghost var st := State();
      var message := ReadLine();
      var q := Classify(message);
      match q
      case Leave =>
        Send(!player1Turn, GameOverMsg(OpponentLeft));
        gameRunning := false;
        assert State() == StepWith(st, q, Reply(st, q));
      case BadPlay =>
        Send(player1Turn, ErrorMsg(BadMoveFormat));
        assert State() == StepWith(st, q, Reply(st, q));
      case Ignored =>
        assert State() == StepWith(st, q, Reply(st, q));
      case Play(r1, c1, r2, c2) =>
        ghost var st1 := State();
        assert Reply(st1, q) == Reply(st, q);
        PlayMove(q);
        assert State() == StepWith(st, q, Reply(st, q));
    }

    /** The rest of an iteration whose line is a well-formed move. */
    method PlayMove(q: Request)
      requires Valid() && q.Play?
      modifies this, gameState, gameState.board
      ensures Valid() && gameState.board == old(gameState.board)
      ensures State() == AfterPlay(old(State()), q, Reply(old(State()), q))
    {
      ghost var st := State();
      var validMove := gameState.ExecuteMove(q.r1, q.c1, q.r2, q.c2);
      ReplyOfOutcome(st, q, validMove, gameState.cells, gameState.whiteTurn);
      Respond(q, validMove);
    }

    /** What the loop does with the answer of `executeMove`, the board being already updated. */
    method Respond(q: Request, validMove: MoveStatus)
      requires Valid() && q.Play?
      modifies this
      ensures Valid()
      ensures State() == AfterPlay(old(State()), q,
        EngineReply(validMove, gameState.cells, gameState.whiteTurn, GameOverSpec(gameState.cells, gameState.whiteTurn)))
    {
      if validMove == IndexOutOfBounds {
        gameRunning := false;
        crashed := true;
      } else if validMove == Accepted {
        var moveMsg := OpponentMoveMsg(q.r1, q.c1, q.r2, q.c2);
        Send(true, moveMsg);
        Send(false, moveMsg);
        var gameOverMsg := gameState.CheckGameOver();
        Conclude(gameOverMsg);
      } else {
        Send(player1Turn, MoveInvalidMsg);
      }
    }

    /** The end of an accepted move's iteration, once `checkGameOver` has answered. */
    method Conclude(gameOverMsg: Option<string>)
      modifies this
      ensures State() == Concluded(old(State()), old(player1Turn), gameOverMsg)
    {
      if gameOverMsg.Some? {
        Send(true, GameOverMsg(gameOverMsg.value));
        Send(false, GameOverMsg(gameOverMsg.value));
        gameRunning := false;
      } else {
        var opponentIsPlayer1 := !player1Turn;
        player1Turn := !player1Turn;
        Send(opponentIsPlayer1, YourTurnMsg);
      }
    }
  }

  // ---------------------------------------------------------------------
  // Properties of the session loop
  // ---------------------------------------------------------------------

  /** The opening: player 1 plays White and is told to move; player 2 plays Black and waits. */
  lemma OpeningMessages(st: RoomState)
    requires st.out1 == [] && st.out2 == []
    ensures Opened(st).out1 == [StartMsg("WHITE"), YourTurnMsg] && Opened(st).out2 == [StartMsg("BLACK")]
    ensures Render(Opened(st).out1[1]) == "YOUR_TURN"
    ensures MessageType(Some(Render(Opened(st).out1[0]))) == Start && MessageContent(Some(Render(Opened(st).out1[0]))) == "WHITE"
    ensures MessageType(Some(Render(Opened(st).out2[0]))) == Start && MessageContent(Some(Render(Opened(st).out2[0]))) == "BLACK"
  {
    var o := Opened(st);
    assert o.out1 == [StartMsg("WHITE"), YourTurnMsg] && o.out2 == [StartMsg("BLACK")];
    ReadBack(o.out1[0]);
    ReadBack(o.out2[0]);
  }

  /** A line starting with neither `DISCONNECT` nor `MOVE` is read and has no other effect. */
  lemma IgnoredLine(st: RoomState, reply: EngineReply)
    requires st.gameRunning
    ensures StepWith(st, Ignored, reply) == Consumed(st)
    ensures StepWith(st, Ignored, reply).(in1 := st.in1, in2 := st.in2) == st
  {
  }

  /**
   * A missing line (the stream is closed) or a `DISCONNECT` line tells the
   * opponent, and only the opponent, that the game is over, and ends the loop.
   */
  lemma Disconnection(st: RoomState, reply: EngineReply)
    requires st.gameRunning
    ensures var r := StepWith(st, Leave, reply);
      !r.gameRunning && r.crashed == st.crashed && r.board == st.board && r.player1Turn == st.player1Turn &&
      (if st.player1Turn then r.out1 == st.out1 && r.out2 == st.out2 + [GameOverMsg(OpponentLeft)]
       else r.out2 == st.out2 && r.out1 == st.out1 + [GameOverMsg(OpponentLeft)])
  {
  }

  /**
   * A `MOVE` line whose payload is not four numbers gets an error back to
   * the mover only; the board and the turn stay.
   */
  lemma MalformedMove(st: RoomState, reply: EngineReply)
    requires st.gameRunning
    ensures StepWith(st, BadPlay, reply) == SendTo(Consumed(st), st.player1Turn, ErrorMsg(BadMoveFormat))
  {
  }

  /** A rejected move: `MOVE_INVALID` to the mover only; board, turn and flags stay. */
  lemma RejectedMoveKeepsTurn(st: RoomState, q: Request, reply: EngineReply)
    requires st.gameRunning && q.Play? && reply.status == Rejected
    ensures StepWith(st, q, reply) == SendTo(Consumed(st), st.player1Turn, MoveInvalidMsg)
  {
  }

  /**
   * An accepted move: both players are sent the same `OPPONENT_MOVE`
   * carrying the move; then either both are told the result and the loop
   * ends, or the turn passes and only the player who did not move is told
   * to play.
   */
  lemma AcceptedMoveBroadcast(st: RoomState, q: Request, reply: EngineReply)
    requires st.gameRunning && q.Play? && reply.status == Accepted
    ensures var r := StepWith(st, q, reply);
      var moveMsg := OpponentMoveMsg(q.r1, q.c1, q.r2, q.c2);
      r.board == reply.board && r.whiteTurn == reply.whiteTurn && r.crashed == st.crashed &&
      match reply.gameOver
      case Some(msg) =>
        !r.gameRunning && r.player1Turn == st.player1Turn &&
        r.out1 == st.out1 + [moveMsg, GameOverMsg(msg)] &&
        r.out2 == st.out2 + [moveMsg, GameOverMsg(msg)]
      case None =>
        r.gameRunning && r.player1Turn == !st.player1Turn &&
        r.out1 == st.out1 + (if st.player1Turn then [moveMsg] else [moveMsg, YourTurnMsg]) &&
        r.out2 == st.out2 + (if st.player1Turn then [moveMsg, YourTurnMsg] else [moveMsg])
  {
  }

  /**
   * `player1Turn` flips on every accepted move that does not end the game,
   * but the rule engine keeps `whiteTurn` exactly when a capture is
   * followed by another from the landing square: from then on the room
   * waits for the player whose colour is not to move.  (When the rule
   * engine keeps the turn is `GameStateModel.TurnAfterCapture`.)
   */
  lemma TurnFlagsDiverge(st: RoomState, q: Request, reply: EngineReply)
    requires st.gameRunning && q.Play? && reply.status == Accepted && reply.gameOver.None?
    requires st.player1Turn == st.whiteTurn
    ensures var r := StepWith(st, q, reply);
      r.gameRunning && (r.player1Turn != r.whiteTurn <==> reply.whiteTurn == st.whiteTurn)
  {
    AcceptedMoveBroadcast(st, q, reply);
  }

  /**
   * A move with an origin off the board makes `executeMove` index outside
   * its array: the exception is not an `IOException`, so the room ends
   * without a `GAME_OVER` to either player.
   */
  lemma OffBoardMoveEndsSilently(st: RoomState, q: Request)
    requires st.gameRunning && q.Play? && !InBounds(q.r1, q.c1)
    ensures var r := StepWith(st, q, Reply(st, q));
      !r.gameRunning && r.crashed && r.out1 == st.out1 && r.out2 == st.out2 && r.board == st.board
  {
  }

  /** Concretely: player 1 sending `MOVE|8,0,7,1` ends the room silently. */
  lemma OffBoardExample(st: RoomState)
    requires st.gameRunning && st.player1Turn && st.in1 != [] && st.in1[0] == MoveMessage(8, 0, 7, 1)
    ensures StepSpec(st).crashed && StepSpec(st).out2 == st.out2
  {
    ClassifyMoveMessage(8, 0, 7, 1);
    OffBoardMoveEndsSilently(st, Play(8, 0, 7, 1));
  }

  /**
   * A running room whose players have nothing more to send ends at once,
   * with a `GAME_OVER` to the player who is not to move and nothing to the
   * other.
   */
  lemma {:induction false} SilentPlayersEndGame(st: RoomState)
    requires st.gameRunning && st.in1 == [] && st.in2 == []
    ensures var r := RunSpec(st);
      r.crashed == st.crashed &&
      (if st.player1Turn then r.out2 == st.out2 + [GameOverMsg(OpponentLeft)] && r.out1 == st.out1
       else r.out1 == st.out1 + [GameOverMsg(OpponentLeft)] && r.out2 == st.out2)
  {
    assert Classify(CurrentLine(st)) == Leave;
    var next := StepSpec(st);
    Disconnection(st, Reply(st, Leave));
    assert RunSpec(st) == RunSpec(next);
  }
}

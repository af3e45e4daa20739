# Damas (Brazilian draughts) in Dafny

A model of the Damas repository, in Dafny. Damas plays Brazilian draughts
on an 8x8 board. Men move one square forward and capture in all four
diagonal directions. Kings are "flying": they move and capture along a
whole diagonal. Captures are mandatory, and a man reaching the far row is
promoted. The repository plays the game in four ways, and each has its own
copy of the rules:

- **Console engine** (`CheckersConsoleBrazil`). Moves are read as four numbers. Before each move the engine searches every capture chain by depth-first search.
- **Local Swing form** (`TabuleiroForm`). Two players share one window. A first click selects a piece; a second click moves it or captures with it.
- **Network server** (`server.CheckersServer`). It pairs clients in rooms, the first to connect playing White. It runs a session loop per room and checks every move with its rule engine (`model.GameState`).
- **Network client form** (`form.TabuleiroForm`). It sends `MOVE` lines and applies moves to its own board without checking them.

The protocol of `network.GameProtocol` connects the client and the server:
`TYPE|PAYLOAD` text lines, where a move payload is `r1,c1,r2,c2`.

## How the model is built

- **Shared board model** (module `Board`). The sources store a square as a string code: `""`, `"⚪"`, `"⚫"`, `"⚪D"` or `"⚫D"`, or a `Piece` object, or `null`. Here a square is an `Option<Piece>`, and a board is an 8x8 `Grid`. The capture rule (`CaptureStep`, `IsCaptureTarget`), promotion (`MoveAndPromote`, `JumpResult`), the one-square step (`SimpleStepTarget`) and the game-over survey are defined once. Every engine's own loops are proved against them.
- **Objects with fields.** Each Java object whose fields change in place is a class:
  - `GameStateModel.GameState`
  - `Console.ConsoleGame`
  - `LocalForm.LocalBoard`
  - `ClientForm.ClientBoard`
  - `Server.Lobby` and `Server.GameRoom`

  Each class that owns a board keeps it in an `array2`, mirrored by a ghost `Grid`; `Server.GameRoom` reaches its board through its `GameState`, and `Server.Lobby` has none. Its methods are proved against reference functions on values: `ExecuteMoveSpec`, `MoveSpec`, `ClickSpec`, `ReceiveSpec`, `HandleSpec` and `StepSpec`/`RunSpec`. Lemmas then state what the sources promise about those functions.
- **Java `int` arithmetic.** Coordinates arriving from the network are full Java `int`s. Coordinate differences and `Math.abs` follow Java's 32-bit wrap-around (module `JavaInt`). An access outside the board is modelled as the `ArrayIndexOutOfBoundsException` it raises: the status `IndexOutOfBounds`, the client's `crashed` flag, or the server room's `crashed` flag. On the client the flag travels from `aplicarMovimento` through `enviarMovimento` out of `cliqueCasa`, which then keeps its selection.
- **I/O.** Sockets, dialogs and standard input become parameters and return values:
  - a click is a method call, and a dialog is the text it would show;
  - a connection is the sequence of lines the peer will send;
  - what a side writes is a log of protocol messages;
  - `System.exit` is the `exited` flag.

## Behaviour of the sources that the lemmas record

Several lemmas pin down behaviour that follows from the code as written.

**Console**
- A king "moving" to its own square is accepted, and the king vanishes (`Console.KingStandingStillVanishes`).
- A king's quiet move may land on an occupied square, which it overwrites (`Console.KingSlideOverwrites`).
- The winner announced is the player not to move, not the side that still has pieces. A side that loses its last piece on its own move is therefore declared the winner: a lone king sent to its own square vanishes, the turn passes, and the next round names that side (`Console.LastPieceLostWins`, with `Console.ConsoleGame.PlayRound`).

**Local form**
- After a capture with a follow-up, the selection is cleared, so any piece with a capture may move next, not only the capturer (`LocalForm.FollowUpNotLocked`).
- The blockade test runs for the opponent of the side that moved (`LocalForm.BlockadeTestedForOpponent`).

**Server**
- The server's turn flag and the engine's turn diverge after a capture that can continue (`Server.TurnFlagsDiverge`).
- A move with an off-board origin ends the session without a message to anyone (`Server.OffBoardMoveEndsSilently`).

**Client**
- The server sends `OPPONENT_MOVE` to both players. The mover therefore re-applies its own move, which erases the piece it just moved (`ClientForm.EchoErasesMover`).
- Clicking the selected square again erases that piece (`ClientForm.ReselectErasesPiece`).
- The client's `minhavez` is cleared only by `GAME_OVER`, because the server never sends `MOVE_OK` (`ClientForm.TurnFlagFromServer`).
- Selection in the client consults `vezBrancas`, which never changes. Black may therefore ignore a capture of its own (`ClientForm.BlackMayIgnoreCapture`).

## Model

| member | source | states |
|---|---|---|
| JavaInt.Sub32 | src/model/GameState.java:58-59 | Java `int` subtraction: congruent to the exact difference modulo 2^32, and equal to it when it is in range |
| JavaInt.Add32 | src/server/CheckersServer.java:68 | Java `int` addition (`++gameCounter`): congruent to the exact sum modulo 2^32, and equal to it when in range |
| JavaInt.Abs32 | src/model/GameState.java:60 | `Math.abs`: non-negative and equal to x or -x, except for `Integer.MIN_VALUE`, whose result is negative |
| Board.SetCell | src/model/GameState.java:188-189 | writing one square changes that square and no other |
| Board.OwnersOf | src/model/GameState.java:239-240 | the colour view that the capture tests read: each square's colour, or empty |
| Board.InitialGrid | src/model/GameState.java:24-38 | the opening layout: Black men on the dark squares of rows 0-2, White men on those of rows 5-7, and every other square empty |
| Board.InitializeBoard | src/model/GameState.java:24-38 | the nested loop leaves the array holding exactly the opening layout |
| Board.MoveAndPromoteEffect | src/model/GameState.java:187-199 | `performSimpleMove`: the destination gets the piece, promoted when it is a man on its far row; the origin is emptied; nothing else changes |
| Board.CaptureStepUnique | src/model/GameState.java:147-165 | a capture jumps over exactly one enemy, so the captured square is determined by the origin and the landing |
| Board.CaptureMovements | src/model/GameState.java:223-273 | `getCaptureMovements`: a square is in the list exactly when it is a capture landing of the piece |
| Board.ManDirectionCaptures | src/model/GameState.java:254-268 | in one direction, a man lists exactly its landing two squares away over an adjacent enemy |
| Board.KingDirectionCaptures | src/model/GameState.java:233-253 | in one direction, a king lists exactly the empty squares after the first enemy and before the next piece |
| Board.KingDirSquare | src/model/GameState.java:239-252 | one step of the king's scan keeps its invariant, or proves that no later square of the ray is a landing |
| Board.AllCaptures | src/model/GameState.java:210-221 | `findAllCaptures`: the list holds exactly the landings of the side's pieces, and it is non-empty exactly when that side can capture |
| Board.SideCaptureTargetWitness | src/model/GameState.java:71-72 | a list of all landings is non-empty exactly when the side can capture (the `mustCapture` test) |
| Board.JumpResultAt | src/model/GameState.java:179-183 | a capture empties the enemy's square and then moves and promotes the piece |
| Board.JumpLands | src/model/GameState.java:179-183 | after a capture the landing holds the capturer, promoted when it reached its far row |
| Board.JumpEffect | src/model/GameState.java:134-185 | `performCapture`: the enemy square lies strictly between and holds an enemy; the enemy, the origin and the landing change as described; every other square is unchanged |
| Board.HasSimpleMove | src/model/GameState.java:313-345 | `hasSimpleMove` is true exactly when the piece has a one-square step: forward for a man, any direction for a king, onto an empty square |
| Board.SimpleMoves | src/TabuleiroForm.java:385-408 | `movimentosSimples` lists exactly the one-square steps of the piece |
| Board.SurveySides | src/model/GameState.java:280-303 | the board scan of `checkGameOver`: each side's "has a piece" and "has a move" flags are true exactly when that holds on the board |
| Board.SurveySquare | src/model/GameState.java:287-300 | one square of the scan keeps the flags exact over the squares scanned so far |
| Board.PieceMovable | src/model/GameState.java:292 | a piece can move exactly when it has a capture or a one-square step |
| Board.ListContains | src/model/GameState.java:77-83 | the search for the destination in the capture list succeeds exactly when the square is listed |
| Board.MovePiece | src/model/GameState.java:187-199 | the array afterwards holds the board with the piece moved and promoted |
| Board.LocateCapture | src/model/GameState.java:134-177 | finds an enemy to capture exactly when a capture step exists, and then names the square of that enemy |
| Board.LocateKingCapture | src/model/GameState.java:147-165 | the king's scan of the path finds an enemy exactly when that enemy is the only piece on the path; it returns false as soon as an own piece or a second piece appears |
| Board.PathIsClear | src/model/GameState.java:201-208 | `isPathClear` is true exactly when every square strictly between is empty |
| GameStateModel.GameState.constructor | src/model/GameState.java:13-17 | a new game: the opening layout, White to move |
| GameStateModel.GameState.ExecuteMove | src/model/GameState.java:44-132 | `executeMove`: the result, the board and the turn are those of the reference definition, an exception on an off-board origin included |
| GameStateModel.GameState.CaptureMove | src/model/GameState.java:75-96 | a move of length two or more is accepted exactly when it lands on a capture landing of the piece, and then it is performed |
| GameStateModel.GameState.PassTurnUnlessCapture | src/model/GameState.java:88-91 | the turn passes unless the capturer can capture again from its landing |
| GameStateModel.GameState.SimpleMove | src/model/GameState.java:98-131 | a short move is refused while a capture is mandatory or the destination is occupied; otherwise a man steps forward or a king moves along a clear path, and the turn passes |
| GameStateModel.GameState.PerformCapture | src/model/GameState.java:134-185 | `performCapture` is true exactly when a single enemy lies between, and then the board is the capture's result; otherwise it is unchanged |
| GameStateModel.GameState.PerformSimpleMove | src/model/GameState.java:187-199 | the board afterwards is the move with promotion |
| GameStateModel.GameState.FindAllCaptures | src/model/GameState.java:210-221 | exactly the landings of the given side's pieces; non-empty exactly when that side can capture |
| GameStateModel.GameState.GetCaptureMovements | src/model/GameState.java:223-273 | empty for an empty square; otherwise exactly the piece's capture landings |
| GameStateModel.GameState.HasSimpleMove | src/model/GameState.java:313-345 | true exactly when the piece has a one-square step |
| GameStateModel.GameState.CheckGameOver | src/model/GameState.java:279-311 | the message is that of the reference game-over test: piece loss first, then a blockade of the side to move |
| GameStateModel.RefusedMoveChangesNothing | src/model/GameState.java:44-132 | a move that is not accepted leaves the board and the turn as they were |
| GameStateModel.EarlyRejections | src/model/GameState.java:45-63 | an empty origin, the opponent's piece, or a move off the diagonals is refused with nothing changed |
| GameStateModel.AcceptedMove | src/model/GameState.java:44-132 | an accepted move starts from the mover's own piece on a diagonal. A long move is a capture onto a landing. A one-square move happened with no capture available, into an empty square and forward for a man, and it passes the turn |
| GameStateModel.MandatoryCapture | src/model/GameState.java:99-102 | while the side can capture, every accepted move is a capture, and its result is the capture's board |
| GameStateModel.TurnAfterCapture | src/model/GameState.java:85-93 | after an accepted capture the same side moves again exactly when the capturer can capture again |
| GameStateModel.KingSimpleMove | src/model/GameState.java:328-342 | a king has a simple move exactly when one of the four adjacent diagonal squares is empty |
| GameStateModel.GameGoesOn | src/model/GameState.java:279-311 | the game goes on exactly when both sides have pieces and the side to move can move |
| CaptureChains.EnemiesShrink | src/CheckersConsoleBrazil.java:206-210 | every capture of the search removes one enemy and adds none, so the search terminates |
| CaptureChains.AfterJumpAt | src/CheckersConsoleBrazil.java:207 | the board the search recurses on is the jump applied over the unique captured enemy |
| CaptureChains.ChainsSound | src/CheckersConsoleBrazil.java:190-258 | every chain that `findCaptureSequencesFrom` reports extends the path and has at least one capture. Each of its steps is a capture on the board left by the steps before it, and the last square has no capture |
| CaptureChains.ChainsNonEmpty | src/CheckersConsoleBrazil.java:245-246 | a search from a path that already holds a capture reports at least one chain |
| CaptureChains.ChainsFromStart | src/CheckersConsoleBrazil.java:190-258 | the search from a piece reports a chain exactly when the piece has a capture, and every chain it reports starts on the piece's square and is maximal |
| CaptureChains.ChainsComplete | src/CheckersConsoleBrazil.java:190-258 | every continuation of the path by a maximal chain with at least one capture is reported: all branches are explored |
| CaptureChains.ChainsFromStartComplete | src/CheckersConsoleBrazil.java:190-258 | every maximal chain from the piece's square with at least one capture is among the chains reported |
| CaptureChains.KingScanEmpty | src/CheckersConsoleBrazil.java:214-243 | a king without a capture finds nothing in any direction |
| CaptureChains.DirChainsEmpty | src/CheckersConsoleBrazil.java:198-244 | a piece without a capture finds nothing in any of the four directions |
| CaptureChains.CanCaptureByDirection | src/CheckersConsoleBrazil.java:198-244 | a piece can capture exactly when it captures in one of the four directions |
| Console.EmptyGrid | src/CheckersConsoleBrazil.java:21 | a new `Piece[8][8]` holds `null` everywhere |
| Console.ConsoleGame.constructor | src/CheckersConsoleBrazil.java:21-26 | the game is set up with the opening layout, White to move |
| Console.ConsoleGame.InitBoard | src/CheckersConsoleBrazil.java:48-57 | on an empty board `initBoard` leaves exactly the opening layout |
| Console.ConsoleGame.PlayRound | src/CheckersConsoleBrazil.java:28-44 | one turn of the main loop: once a side has no pieces the game ends and the player not to move is declared the winner, whichever side lost its pieces; otherwise the move is played as `move` defines, and the player changes exactly when it is accepted |
| Console.ConsoleGame.Move | src/CheckersConsoleBrazil.java:73-106 | `move`: the result and the board are those of the reference definition |
| Console.ConsoleGame.OwnMove | src/CheckersConsoleBrazil.java:78-105 | from an own piece: a capture is played if the move is one; otherwise it is refused while any capture exists; otherwise it is a quiet move |
| Console.ConsoleGame.QuietMove | src/CheckersConsoleBrazil.java:90-105 | a man steps forward onto an empty square and is promoted; a king moves along a diagonal with every square between empty, and is not promoted |
| Console.ConsoleGame.TryCapture | src/CheckersConsoleBrazil.java:109-148 | `tryCapture` is true exactly when the move lands on a capture landing of the piece, and then the board is the capture applied (before promotion); otherwise unchanged |
| Console.ConsoleGame.TryManCapture | src/CheckersConsoleBrazil.java:113-123 | the man's capture is played exactly when the move is a two-square jump over an enemy onto an empty square |
| Console.ConsoleGame.TryKingCapture | src/CheckersConsoleBrazil.java:124-145 | the king's capture is played exactly when the destination is a landing after the single enemy on its path |
| Console.ConsoleGame.HasFurtherCapture | src/CheckersConsoleBrazil.java:150-179 | `hasFurtherCapture` is true exactly when the square holds a piece that can capture |
| Console.ConsoleGame.ManHasCapture | src/CheckersConsoleBrazil.java:156-161 | a man has a capture in a direction exactly when it jumps there |
| Console.ConsoleGame.KingHasCapture | src/CheckersConsoleBrazil.java:162-175 | a king's scan finds a landing exactly when it has a capture in that direction |
| Console.ConsoleGame.FindAllCaptureSequences | src/CheckersConsoleBrazil.java:181-188 | the chains of all the player's pieces, in board order; the board is restored; the list is non-empty exactly when the player can capture |
| Console.ConsoleGame.ScanRow | src/CheckersConsoleBrazil.java:184-186 | the chains of one row's pieces, with the board unchanged |
| Console.ConsoleGame.ScanSquare | src/CheckersConsoleBrazil.java:185-186 | the chains of one square if it holds the player's piece, none otherwise |
| Console.ConsoleGame.FindCaptureSequencesFrom | src/CheckersConsoleBrazil.java:190-258 | the chains of the depth-first search from one piece, with the board restored from its copy afterwards |
| Console.ConsoleGame.Rec | src/CheckersConsoleBrazil.java:196-247 | `rec` reports the chains of the reference search. The colours on the board are restored, although a captured king comes back as a man |
| Console.ConsoleGame.Jumps | src/CheckersConsoleBrazil.java:199-244 | one direction of `rec`: its chains, and whether it extended the path |
| Console.ConsoleGame.ManJumps | src/CheckersConsoleBrazil.java:201-213 | a man's jump in one direction, the recursion from the landing, and the undo |
| Console.ConsoleGame.ManJump | src/CheckersConsoleBrazil.java:206-211 | applying, recursing on and undoing one man's capture yields the chains continued from the landing |
| Console.ConsoleGame.KingJumps | src/CheckersConsoleBrazil.java:214-243 | the king's scan in one direction reports the reference scan's chains |
| Console.ConsoleGame.KingVisit | src/CheckersConsoleBrazil.java:219-241 | one square of the king's scan keeps the scan's invariant or ends it with the direction's chains |
| Console.ConsoleGame.KingJump | src/CheckersConsoleBrazil.java:222-233 | applying, recursing on and undoing one king's capture yields the chains continued from the landing |
| Console.ConsoleGame.Put | src/CheckersConsoleBrazil.java:118 | one array write changes one square of the board |
| Console.ConsoleGame.ClearPath | src/CheckersConsoleBrazil.java:270-279 | `clearPath` is true exactly when every square strictly between is empty |
| Console.ConsoleGame.PromoteIfNeeded | src/CheckersConsoleBrazil.java:281-289 | a man on its far row becomes a king; nothing else changes |
| Console.ConsoleGame.IsGameOver | src/CheckersConsoleBrazil.java:295-306 | the game is over exactly when a side has no pieces |
| Console.CaptureAppliedPromoted | src/CheckersConsoleBrazil.java:82-85 | a capture followed by `promoteIfNeeded` gives the same board as the server's capture |
| Console.AllChainsNonEmpty | src/CheckersConsoleBrazil.java:78-79 | `mustCapture` (the chain list is non-empty) holds exactly when the player has a capture |
| Console.SquareChainsExact | src/CheckersConsoleBrazil.java:185-186 | the chains reported for a square are exactly the maximal chains, holding a capture, of the player's own piece there |
| Console.SquareChainsNonEmpty | src/CheckersConsoleBrazil.java:185-186 | a square contributes chains exactly when it holds the player's piece and that piece can capture |
| Console.KingStandingStillVanishes | src/CheckersConsoleBrazil.java:97-101 | with no capture available, a king's move to its own square is accepted, and the king disappears from the board |
| Console.LastPieceLostWins | src/CheckersConsoleBrazil.java:28-44 | a lone king with no capture, moved onto its own square, is accepted and leaves its side without pieces, so the next round ends the game |
| Console.KingSlideOverwrites | src/CheckersConsoleBrazil.java:97-101 | with no capture available, a king's quiet move onto an occupied square along a clear path is accepted and overwrites that square |
| LocalForm.Finished | src/TabuleiroForm.java:304-313 | after a move the board is the new one and the turn passes; the program exits exactly when a verdict dialog is shown |
| LocalForm.LocalBoard.constructor | src/TabuleiroForm.java:22-33 | the opening layout, White to move, nothing selected |
| LocalForm.LocalBoard.CliqueCasa | src/TabuleiroForm.java:160-195 | `cliqueCasa`: the new state and the dialog are those of the reference click |
| LocalForm.LocalBoard.Select | src/TabuleiroForm.java:167-187 | a piece of the side to move is selected unless its side can capture and it cannot; it shows the "must capture" dialog or, for an opponent's piece, "not your turn" |
| LocalForm.LocalBoard.MoverOuCapturar | src/TabuleiroForm.java:197-247 | `moverOuCapturar` behaves as the reference definition, its silent refusals included |
| LocalForm.LocalBoard.Attempt | src/TabuleiroForm.java:208-246 | a diagonal move into an empty square is a capture, a refusal while a capture is mandatory, or a simple move |
| LocalForm.LocalBoard.Capture | src/TabuleiroForm.java:222-226 | a listed capture is made and then the sequential-capture check runs |
| LocalForm.LocalBoard.SimpleMove | src/TabuleiroForm.java:236-246 | a man moves one square forward, a king along a clear diagonal; any other move does nothing |
| LocalForm.LocalBoard.RealizarCaptura | src/TabuleiroForm.java:249-293 | `realizarCaptura` is true exactly when a single enemy lies between, and then the move is finished; otherwise nothing changes |
| LocalForm.LocalBoard.CaminhoLivre | src/TabuleiroForm.java:295-302 | true exactly when every square strictly between is empty |
| LocalForm.LocalBoard.RealizarMovimento | src/TabuleiroForm.java:304-313 | the move and promotion, then the turn passes and the victory check runs |
| LocalForm.LocalBoard.ChecarCapturasSequenciais | src/TabuleiroForm.java:315-325 | if the landed piece can capture again, the turn goes back to its side, it is selected, and the dialog is shown; otherwise nothing changes |
| LocalForm.LocalBoard.EncontrarTodasCapturas | src/TabuleiroForm.java:327-338 | exactly the landings of the side's pieces; non-empty exactly when the side can capture |
| LocalForm.LocalBoard.MovimentosDeCaptura | src/TabuleiroForm.java:340-383 | empty for an empty square; otherwise exactly the piece's capture landings |
| LocalForm.LocalBoard.VerificarVitoria | src/TabuleiroForm.java:410-452 | the verdict is the reference victory test: a side without pieces loses, then the side to move loses when it cannot move |
| LocalForm.VerdictAgreesWithServer | src/TabuleiroForm.java:410-452 | the form declares a winner exactly when the server's `checkGameOver` does: when a side has no pieces or the side to move cannot move |
| LocalForm.ClickKeepsSelection | src/TabuleiroForm.java:160-195 | every click keeps the selection sound until the program exits. The selected square holds a piece of the side to move, and that piece can capture whenever its side can |
| LocalForm.InitialSelectionHeld | src/TabuleiroForm.java:18-19 | the initial form, with nothing selected, satisfies that invariant |
| LocalForm.MandatoryCaptureClick | src/TabuleiroForm.java:208-234 | while a capture is available, a click that changes the board plays a capture by the selected piece |
| LocalForm.KingSlides | src/TabuleiroForm.java:242-245 | with no capture available, a king moves any distance along a clear diagonal into an empty square |
| LocalForm.MoveEmptiesOrigin | src/TabuleiroForm.java:197-247 | a move either changes nothing or leaves the origin square empty |
| LocalForm.FollowUpNotLocked | src/TabuleiroForm.java:189-194 | after a capture with a follow-up, the same side moves again with nothing selected, and any of its pieces that can capture may be selected |
| LocalForm.BlockadeTestedForOpponent | src/TabuleiroForm.java:311-312 | after a capture, a blockade of the opponent ends the game in the mover's favour |
| LocalForm.ServerGoesOnAfterFollowUp | src/model/GameState.java:279-311 | after a capture with a follow-up the server's test lets the game go on, since the capturer can still move |
| Protocol.IndexOf | src/network/GameProtocol.java:88 | `indexOf`: absent exactly when the character does not occur; otherwise its first position |
| Protocol.IndexAfterPrefix | src/network/GameProtocol.java:88 | the separator after a separator-free prefix is found at the end of that prefix |
| Protocol.MessageType | src/network/GameProtocol.java:81-89 | `getMessageType`: empty for `null` or `""`; the whole line when it has no separator; otherwise the separator-free part before the first separator |
| Protocol.MessageContent | src/network/GameProtocol.java:94-99 | `getMessageContent`: empty without a separator; otherwise the type, the separator and the content give back the line |
| Protocol.TypedMessage | src/network/GameProtocol.java:81-99 | a line built as type, separator and payload splits back into that type and that payload |
| Protocol.ConnectMessage | src/network/GameProtocol.java:34-36 | reads back as type `CONNECT` with the player's name as content |
| Protocol.StartMessage | src/network/GameProtocol.java:50-52 | reads back as type `START` with the colour as content |
| Protocol.GameOverMessage | src/network/GameProtocol.java:66-68 | reads back as type `GAME_OVER` with the text as content |
| Protocol.ErrorMessage | src/network/GameProtocol.java:74-76 | reads back as type `ERROR` with the text as content |
| Protocol.MoveMessage | src/network/GameProtocol.java:42-44 | reads back as type `MOVE`, and its content parses back to the four coordinates, negative ones included |
| Protocol.OpponentMoveMessage | src/network/GameProtocol.java:58-60 | reads back as type `OPPONENT_MOVE`, and its content parses back to the four coordinates |
| Protocol.TypeAndContent | src/network/GameProtocol.java:81-99 | for a line with a separator, type, separator and content rebuild the line |
| Protocol.BareMessage | src/network/GameProtocol.java:85-86 | a line without a separator has empty content and is its own type |
| Protocol.IntToString | src/network/GameProtocol.java:43 | the decimal text of an `int` is non-empty and holds neither separator |
| Protocol.ParseInt | src/network/GameProtocol.java:112-115 | a successful parse was of an optional sign and then digits only; a negative sign gives a value of at most zero |
| Protocol.ParseIntToString | src/network/GameProtocol.java:112-115 | parsing the decimal text of any `int` gives it back |
| Protocol.Fields | src/network/GameProtocol.java:106 | the comma-separated fields hold no comma and join back to the string |
| Protocol.FieldsOfJoin | src/network/GameProtocol.java:106 | splitting comma-joined comma-free fields gives them back |
| Protocol.DropTrailingEmpty | src/network/GameProtocol.java:106 | the trailing empty fields are removed, and only they are |
| Protocol.Split | src/network/GameProtocol.java:106 | `split(",")`: no field holds a comma; without a comma the string itself; otherwise no trailing empty field |
| Protocol.SplitOfJoin | src/network/GameProtocol.java:106 | splitting joined fields gives them back when the last one is not empty |
| Protocol.SplitDropsTrailingEmpty | src/network/GameProtocol.java:106 | a last empty field after a non-empty one is dropped by the split, the other fields kept |
| Protocol.ParseMove | src/network/GameProtocol.java:105-120 | four numbers exactly when the split gives four fields that all parse, each number being its field's value; the empty result otherwise |
| Protocol.PayloadRoundTrip | src/network/GameProtocol.java:42-44 | the payload `r1,c1,r2,c2` parses back to the four `int`s |
| Protocol.TrailingCommaParses | src/network/GameProtocol.java:106 | any move payload followed by a comma still parses to its four coordinates, since `split` drops the trailing empty field |
| Server.ReadBack | src/network/GameProtocol.java:50-68 | every message the server sends reads back as its type, and its colour, text or move as content |
| Server.Lobby.constructor | src/server/CheckersServer.java:17-23 | an empty waiting-room queue, no room numbered yet |
| Server.Lobby.HandleClient | src/server/CheckersServer.java:46-86 | `handleClient`: the queue, the counter, the replies and the outcome are those of the reference definition |
| Server.HandlingKeepsLobby | src/server/CheckersServer.java:65-81 | the queue holds at most one room, and it is the one numbered last |
| Server.RefusedClient | src/server/CheckersServer.java:53-57 | a missing first line or one not starting with `CONNECT` gets an error, and the lobby is unchanged |
| Server.PairingOfTwo | src/server/CheckersServer.java:59-81 | the first client gets `CONNECTED` and `WAIT` and opens the next room; the second gets `CONNECTED` and joins that room, which leaves the queue |
| Server.RoomNumberWraps | src/server/CheckersServer.java:68 | after `Integer.MAX_VALUE` rooms the next room is numbered `Integer.MIN_VALUE` |
| Server.Classify | src/server/CheckersServer.java:151-201 | a line ends the session exactly when it is `null` or starts with `DISCONNECT`. A `MOVE` line is a move exactly when its content parses to four numbers, and a malformed move otherwise. Anything else is ignored |
| Server.ClassifyMoveMessage | src/server/CheckersServer.java:160-168 | a line built by `createMoveMessage` is read as exactly that move |
| Server.SendTo | src/server/CheckersServer.java:147-148 | sending appends to a log and reads nothing |
| Server.Opened | src/server/CheckersServer.java:133-142 | player 1 is sent `START|WHITE` and `YOUR_TURN`, player 2 `START|BLACK`; the loop starts with player 1 |
| Server.ReplyOfOutcome | src/server/CheckersServer.java:168-182 | the room sees the engine's status, board and turn, and `checkGameOver` on them; a refused move changes nothing |
| Server.StepWith | src/server/CheckersServer.java:144-207 | one turn of the loop on the line read: only the current player's input loses its first line, and the logs only grow |
| Server.StepSpec | src/server/CheckersServer.java:144-207 | one turn of the loop brings the session closer to its end |
| Server.RunSpec | src/server/CheckersServer.java:144-213 | the session loop ends, and the logs only grow |
| Server.GameRoom.constructor | src/server/CheckersServer.java:111-128 | a new room: a new game, player 1's turn, no messages sent yet |
| Server.GameRoom.StartGame | src/server/CheckersServer.java:130-214 | `startGame`: the opening messages, then the loop run to its end |
| Server.GameRoom.Step | src/server/CheckersServer.java:145-206 | one turn of the loop, as the reference step defines |
| Server.GameRoom.PlayMove | src/server/CheckersServer.java:164-197 | a parsed move goes through `executeMove` and `checkGameOver`, and the replies follow |
| Server.GameRoom.Respond | src/server/CheckersServer.java:171-197 | the replies to the engine's answer |
| Server.GameRoom.Conclude | src/server/CheckersServer.java:182-194 | the game-over message to both players, or the turn passed with `YOUR_TURN` |
| Server.GameRoom.ReadLine | src/server/CheckersServer.java:151 | reads the current player's next line, `null` once there is none |
| Server.GameRoom.Send | src/server/CheckersServer.java:147-148 | one line appended to one player's log |
| Server.OpeningMessages | src/server/CheckersServer.java:133-136 | the opening lines read back as `START|WHITE`, `YOUR_TURN` and `START|BLACK` |
| Server.IgnoredLine | src/server/CheckersServer.java:160-201 | a line that is neither `MOVE` nor `DISCONNECT` is consumed and nothing else changes |
| Server.Disconnection | src/server/CheckersServer.java:153-158 | on a disconnection only the opponent is told, with "Oponente desconectou", and the loop ends |
| Server.MalformedMove | src/server/CheckersServer.java:198-200 | a malformed move is answered with the format error to its sender only |
| Server.RejectedMoveKeepsTurn | src/server/CheckersServer.java:195-197 | a refused move is answered `MOVE_INVALID` to its sender, and the same player is asked again |
| Server.AcceptedMoveBroadcast | src/server/CheckersServer.java:171-194 | an accepted move goes to both players as `OPPONENT_MOVE`. Then both get the game-over message and the loop ends, or the turn passes and only the other player gets `YOUR_TURN` |
| Server.TurnFlagsDiverge | src/server/CheckersServer.java:189 | after an accepted move the room's turn and the engine's turn disagree exactly when the engine kept the turn for a follow-up capture |
| Server.OffBoardMoveEndsSilently | src/server/CheckersServer.java:209-213 | a move whose origin is off the board throws in `executeMove` and ends the session with no message to either player |
| Server.OffBoardExample | src/server/CheckersServer.java:209-213 | `MOVE|8,0,7,1` from player 1 ends the session and tells player 2 nothing |
| Server.SilentPlayersEndGame | src/server/CheckersServer.java:151-158 | when neither player sends anything more, the side to move is taken as disconnected and only its opponent is told |
| ClientForm.SendSpec | src/form/TabuleiroForm.java:465-470 | `enviarMovimento` changes neither the turn, the selection nor the connection flags; without the output it changes nothing, and it throws only when the output exists |
| ClientForm.ClickSpec | src/form/TabuleiroForm.java:202-247 | a click changes neither `vezBrancas` nor the connection, colour and turn flags |
| ClientForm.OffBoardPathKeepsSelection | src/form/TabuleiroForm.java:242-245 | a click from (1, 6) to (7, 7) writes the `MOVE` line, empties (2, 7), throws, and keeps the selection |
| ClientForm.Disconnected | src/form/TabuleiroForm.java:501-525 | `desconectar` drops `conectado` and `minhavez` and leaves the board |
| ClientForm.OpponentMoved | src/form/TabuleiroForm.java:427-433 | `OPPONENT_MOVE` changes at most the board, and a payload that is not four numbers changes nothing |
| ClientForm.ReceiveSpec | src/form/TabuleiroForm.java:388-452 | no message changes `vezBrancas` |
| ClientForm.ClearPathEmpties | src/form/TabuleiroForm.java:481-487 | on a ray that stays on the board, the loop of `aplicarMovimento` does not throw and empties exactly the squares between, whatever they hold |
| ClientForm.ApplyDiagonal | src/form/TabuleiroForm.java:472-499 | `aplicarMovimento` along a diagonal: the squares between and the origin are emptied, the destination gets the origin's content promoted, and the rest is unchanged |
| ClientForm.ApplyTwiceEmpties | src/form/TabuleiroForm.java:472-499 | applying the same diagonal move twice leaves both its origin and its destination empty |
| ClientForm.EchoErasesMover | src/form/TabuleiroForm.java:242-246 | a move sent by this client puts its piece on the destination, and the server's echo of it then empties that square |
| ClientForm.ReceiveOpponentMove | src/form/TabuleiroForm.java:427-433 | the server's `OPPONENT_MOVE` line is applied to the board with its own coordinates, and nothing else changes |
| ClientForm.SentMoveIsPlayed | src/form/TabuleiroForm.java:465-468 | the server reads the line the client sends as exactly the clicked move |
| ClientForm.ClickGuards | src/form/TabuleiroForm.java:207-240 | only a connected player on its turn with a selection changes the board or sends; a new selection is an own piece on the clicked square |
| ClientForm.ReselectErasesPiece | src/form/TabuleiroForm.java:242-246 | clicking the selected square again sends a zero-length move and empties that square, changing nothing else |
| ClientForm.BlackMayIgnoreCapture | src/form/TabuleiroForm.java:222-232 | for Black, selection tests White's captures, since `vezBrancas` stays true, so a Black piece without a capture is selected |
| ClientForm.TurnFlagFromServer | src/form/TabuleiroForm.java:403-442 | of the server's messages, `YOUR_TURN` sets `minhavez` and `GAME_OVER` clears it; all others leave it |
| ClientForm.StartAssignsColour | src/form/TabuleiroForm.java:394-395 | `START|WHITE` makes the client White and `START|BLACK` makes it Black |
| ClientForm.ClientBoard.constructor | src/form/TabuleiroForm.java:46-82 | the opening layout, White's turn, nothing selected, not connected, no output |
| ClientForm.ClientBoard.Conectar | src/form/TabuleiroForm.java:314-376 | an existing connection, an empty IP or an empty name shows its dialog and changes nothing. Otherwise `CONNECT|name` is sent, and the client is connected exactly when the answer is `CONNECTED`; any other answer, or none, shows the connection-failure dialog |
| ClientForm.ClientBoard.CliqueCasa | src/form/TabuleiroForm.java:202-247 | `cliqueCasa`: the new state and the dialog are those of the reference click, the selection kept when the move threw |
| ClientForm.ClientBoard.Select | src/form/TabuleiroForm.java:220-240 | the player's own piece is selected unless the side `vezBrancas` names can capture and this piece cannot. Otherwise the "must capture" or the "not your piece" dialog is shown |
| ClientForm.ClientBoard.EnviarMovimento | src/form/TabuleiroForm.java:465-470 | the `MOVE` line is logged and the move applied locally, if the output exists; the result says whether `aplicarMovimento` threw |
| ClientForm.ClientBoard.AplicarMovimento | src/form/TabuleiroForm.java:472-499 | the board, and whether the method threw, are those of the reference definition |
| ClientForm.ClientBoard.ClearPathLoop | src/form/TabuleiroForm.java:481-487 | the loop empties the squares between, stopping with an exception at the first one off the board |
| ClientForm.ClientBoard.ReceberMensagem | src/form/TabuleiroForm.java:381-452 | one line of `receberMensagens` changes the state as the reference definition says |
| ClientForm.ClientBoard.ReceberJogada | src/form/TabuleiroForm.java:427-433 | the `OPPONENT_MOVE` branch |
| ClientForm.ClientBoard.Desconectar | src/form/TabuleiroForm.java:501-507 | both flags drop, and `DISCONNECT` is logged if the output exists |

## Left out

- Swing rendering (`desenharTabuleiro`, button colours, labels, the network panel) has no effect on game state, so it is not modelled. Dialogs are returned as the text they show.
- Sockets, threads and the `SwingUtilities.invokeLater` queue are not modelled. Posted actions are taken to run at once and in order, and a connection is the list of lines its peer sends.
- `CheckersServer.start` and `stop` (the accept loop, the thread pool and the server socket) are not modelled. `closeConnections` and socket closing do not affect the model's state. Rooms are paired one client at a time, so concurrent `handleClient` calls are not modelled.
- The console's `Scanner` input and `printBoard` are not modelled: `PlayRound` takes the four numbers as parameters. A non-numeric input, which throws in `nextInt`, is not modelled.
- Logging to `System.out` and `System.err` is not modelled.
- `src/tcp/server/ServidorDamas.java` and `src/tcp/client/ClienteDamas.java` are an older TCP prototype outside the core, so they are not modelled.
- `ClientForm.ClientBoard.Conectar`: the text fields are taken as already trimmed. A socket that fails to open, and an I/O failure on reading the answer, are not modelled; both show the failure dialog with the exception's own message, without changing the board.
- `ClientForm.ReceiveSpec`: `WAIT`, `MOVE_INVALID` and `ERROR` only update labels or show dialogs, so they leave the state unchanged. The `IOException` branch of `receberMensagens` is not modelled.
- `Console.MoveSpec`: `copyBoard` is a value copy of the grid. Piece objects shared between the board and the backup are not modelled as separate objects.
- `Protocol.ParseInt`: only ASCII digits are accepted. Java's `Integer.parseInt` also accepts other Unicode decimal digits.
- `Server.GameRoom.StartGame`: an `IOException` while reading a line is not modelled, since a connection here is a list of lines. An exception thrown by `executeMove` on an off-board origin is modelled, as `crashed`.

# Tic-tac-toe game engine, modelled in Dafny

This project models the game engine of a two-player tic-tac-toe server
(`server/gameEngine.js`). Players create a game from the lobby, a second
player joins it, and the two take turns placing X and O on a 3x3 board.
The engine keeps every game in one registry, a JavaScript `Map` from game
id to game object, and offers four operations:

- `createGame` files a new waiting game with its creator pending.
- `joinGame` seats players (the pending creator first), rebinds the socket
  of a name that is already seated, refuses a finished or full game, and
  starts the game with a `start_game` message to each seat once two seats
  are filled.
- `playMove` checks the guards (game playing, mover on turn, cell on the
  board and empty), writes the mark into the board array in place, asks
  `checkWinner` for the outcome, updates status, winner and turn, and
  sends `update` or `game_over` to both seats.
- `getAvailableGames` lists, in registry order, the games that have a free
  seat and are not finished, each labelled with a name to show.

The model has three layers:

- **Values.** `Board` holds the grid, the eight lines and `checkWinner`,
  proved against an independent definition of "a mark owns a row, column
  or diagonal". `Session` holds one game as a value: what `joinGame` and
  `playMove` make of it and which messages they send, plus the invariant
  `Inv` that every registered game keeps.
- **Proofs about the values.** `SessionProperties` proves what the two
  handlers promise about one game. `Lifecycle` follows a game through any
  sequence of requests. `Lobby` specifies the lobby list.
- **Imperative engine.** `GameEngine` has a class `Game`, whose fields the
  handlers update and whose board is a 3x3 `array2` written one cell at a
  time. It also has a class `Engine`, holding the `games` map and the
  insertion order that the source's `Map` iterates in. Each method is
  proved against the value layer:
  - `Engine.Valid` ties every filed game object to its state in the ghost
    map `Sessions`.
  - It keeps each game's own invariant.
  - It keeps every game's board array apart from the others, so a move in
    one game cannot change another.

Messages are returned as a list of `(socket, payload)` pairs in seat
order, and are not sent. Sockets are numbers compared by identity.

## Model

| member | source | states |
|---|---|---|
| Common.IndexOf | server/gameEngine.js:89 | `indexOf`: -1 exactly when the value is absent, otherwise the first index holding it |
| Board.EmptyGrid | server/gameEngine.js:14-18 | a new board is 3x3 with every cell empty |
| Board.SetCell | server/gameEngine.js:97 | writing one cell sets that cell and leaves the other eight as they were |
| Board.FirstWinningMark | server/gameEngine.js:149-153 | the search finds nothing exactly when no remaining line is uniform and non-empty; otherwise it returns the first such line's mark |
| Board.LinesAgree | server/gameEngine.js:135-147 | the eight listed lines are exactly the three rows, three columns and two diagonals: a listed line is uniform in m exactly when m owns a row, column or diagonal |
| Board.CheckWinnerCorrect | server/gameEngine.js:134-159 | `checkWinner` reports a winner exactly when some mark owns a line, and that mark owns one; "egality" exactly when no line is owned and the board is full; null exactly when no line is owned and a cell is free |
| Board.CheckWinnerNamesOwner | server/gameEngine.js:149-153 | when the two marks do not both own lines, `checkWinner` names m exactly when m owns a line |
| Board.LineAfterPlacement | server/gameEngine.js:97-99 | a line owned after placing m was already owned, unless it belongs to m |
| Board.NewLineBelongsToMover | server/gameEngine.js:97-109 | on a board without an owned line, placing m can only create lines of m, so the result is a win for m, "egality" or null |
| Session.NewGameInvariant | server/gameEngine.js:9-22 | a new game is waiting, has no seats and satisfies the game invariant |
| SessionProperties.PlayIgnored | server/gameEngine.js:87-94 | a move changes nothing and sends nothing exactly when the game is not playing, the socket's seat is not on turn, the cell is off the board, or the cell is taken |
| SessionProperties.PlayPlacesOneMark | server/gameEngine.js:96-97 | an accepted move writes X for seat 0 and O for seat 1 into the target cell; the other cells, the seats and the names are unchanged |
| SessionProperties.PlayNeverErases | server/gameEngine.js:85-132 | no move empties a cell or changes a mark already on the board |
| SessionProperties.PlayOutcome | server/gameEngine.js:99-109 | after an accepted move: if the mover owns a line, the game is finished, won by the mover's seat, with the turn unchanged; else if the board is full it is a finished draw; else it goes on with the other seat on turn |
| SessionProperties.PlayPreservesInv | server/gameEngine.js:85-132 | every move keeps the game invariant: seats and names parallel and distinct, the winner owns a line and the loser none, a draw is full and lineless, and a playing board is neither won nor full |
| SessionProperties.PlayNotifies | server/gameEngine.js:111-131 | after an accepted move each of the two seats gets one payload on its own socket: `game_over` exactly when finished, else `update`, carrying the new board and the last move; `yourTurn` is set only for the seat on turn while playing; `currentPlayer` is that seat's name while playing, else null; `winner` is the mover's name or "egality" |
| Session.ErrorTextsDistinct | server/gameEngine.js:30-52 | the three refusal replies ("Partie introuvable.", "Partie terminée.", "Partie pleine.") are pairwise different, so each names its own cause |
| SessionProperties.JoinFinished | server/gameEngine.js:31 | a finished game refuses every join with the reply "Partie terminée." and is left as it was |
| SessionProperties.JoinSeatsCreator | server/gameEngine.js:34-43 | the first join seats the pending creator in seat 0 (on the joining socket when the names match) and clears it; the creator's own rejoin leaves the game waiting, and another name takes seat 1 and starts the game |
| SessionProperties.JoinRebindsSeat | server/gameEngine.js:46-48 | a name already seated only gets its socket replaced; names, board, turn, status and winner are unchanged |
| SessionProperties.JoinSeatsNewcomer | server/gameEngine.js:46-60 | once the creator sits alone in seat 0, a new name takes seat 1 on its own socket, the game starts and both seats are sent `start_game`; board, turn and winner are untouched |
| SessionProperties.JoinFull | server/gameEngine.js:51-53 | a new name at a game with two seats is refused with the reply "Partie pleine." and the game is left as it was |
| SessionProperties.JoinOutcome | server/gameEngine.js:28-83 | a join is refused as finished exactly on a finished game, and as full exactly when a new name meets two seats; a refusal changes and sends nothing. An accepted join leaves the game playing exactly when two seats are filled, and then sends `start_game` to both seats (mark by seat, `yourTurn` for the seat on turn, the other seat's name as opponent); otherwise the game is waiting and nothing is sent |
| SessionProperties.JoinPreservesInv | server/gameEngine.js:28-83 | every join keeps the game invariant; in particular there are at most two seats, with distinct names |
| Lifecycle.Step | server/gameEngine.js:28-132 | one `joinGame` or `playMove` request keeps the game invariant |
| Lifecycle.Run | server/gameEngine.js:28-132 | any sequence of requests keeps the game invariant |
| Lifecycle.FinishedAbsorbing | server/gameEngine.js:31 | once a game is finished, no sequence of joins or moves changes it |
| Lifecycle.StepForward | server/gameEngine.js:28-132 | one request never moves the status back; seated names keep their seats; marks on the board stay |
| Lifecycle.RunForward | server/gameEngine.js:28-132 | across any sequence of requests the status only moves forward (waiting, playing, finished); seated names keep their seats; marks on the board stay |
| Lobby.AvailableListsJoinable | server/gameEngine.js:163-176 | an entry is listed exactly when its game is registered, has fewer than two seats, is not finished, and the entry carries that game's label |
| Lobby.AvailableOncePerGame | server/gameEngine.js:165-173 | when the registry visits each id once, no game is listed twice |
| GameEngine.Game.constructor | server/gameEngine.js:9-22 | the new object holds a new game (creator pending, empty 3x3 board, turn 0, waiting, no winner) on a fresh board array |
| GameEngine.Game.Join | server/gameEngine.js:31-82 | the fields become the value `joinGame` makes of the old ones, and the reply and messages are the ones it sends; the game invariant is kept |
| GameEngine.Game.Play | server/gameEngine.js:87-131 | after the guards, one cell of the board array is written in place; the fields and board become what `playMove` makes of them, the returned payloads are the ones it sends, and the game invariant is kept |
| GameEngine.Game.Place | server/gameEngine.js:97 | the board array afterwards holds the old board with exactly that one cell changed |
| GameEngine.Game.Listing | server/gameEngine.js:166-171 | the game is listed exactly when it is joinable, under the label the lobby shows |
| GameEngine.Game.Starts | server/gameEngine.js:62-77 | the loop builds the `start_game` payload for each seat, in seat order |
| GameEngine.Game.Updates | server/gameEngine.js:111-131 | the loop builds the `update` or `game_over` payload for each seat, in seat order |
| GameEngine.Engine.constructor | server/gameEngine.js:1 | the registry starts empty |
| GameEngine.Engine.CreateGame | server/gameEngine.js:7-26 | the id's entry becomes a new game, replacing whatever was there; a new id is appended to the iteration order, while a replaced one keeps its place; the registry stays consistent |
| GameEngine.Engine.CreateGameUnique | server/gameEngine.js:7-26 | corrected `createGame`: an id in use is refused; otherwise the new game is filed at the end of the order; no existing game ever changes |
| GameEngine.CollisionReplacesLiveGame | server/gameEngine.js:24 | as written, calling `CreateGame` with the id of a game in play replaces that game with a waiting game with no seats |
| GameEngine.Engine.JoinGame | server/gameEngine.js:28-83 | the iteration order never changes; a missing id is refused with "Partie introuvable." and changes nothing; otherwise exactly that game changes as `joinGame` says, and the registry stays consistent |
| GameEngine.Engine.PlayMove | server/gameEngine.js:85-132 | the iteration order never changes; a missing id is ignored; otherwise exactly that game changes as `playMove` says, and every other game and its board are untouched |
| GameEngine.Engine.GetAvailableGames | server/gameEngine.js:163-176 | the list is the lobby list of the registry in insertion order: an entry appears exactly when its game is joinable and carries its label, and no id appears twice |

## Left out

- `generateGameId` (lines 3-5) draws a random id. Randomness is outside the model, so the id is a parameter of `CreateGame`.
- `createGame` returns the game object. The caller of the model already holds the id, so nothing is returned.
- `ws.send`, `JSON.stringify` and the empty `catch` are not modelled. The payloads are returned in seat order as what each handler attempts to send, because a failed send is ignored by the source and changes no state.
- Sockets are opaque numbers compared by identity. Their connection state and closing are not modelled.
- The WebSocket server that routes messages to these handlers and the browser client are not part of this model.
- GameEngine.Engine.PlayMove: `row` and `col` are integers, so the model does not cover the JavaScript behaviour for non-numeric or fractional coordinates, which the message router would have to let through.
- Each handler runs to completion before the next one starts, as on Node's single event loop, so no interleaving is modelled.
- The engine's specification asks that an id collision never silently overwrite a live game. The code overwrites: `games.set` replaces the entry. `CreateGame` models the code, and the finding below records the difference.
- A `Map` key that is set again keeps its first position in iteration order. `Engine.order` follows that rule.

## Findings

| source | as written | input that shows it | evidently intended | confidence | as-written member | corrected member |
|---|---|---|---|---|---|---|
| server/gameEngine.js:7-26 | `createGame` files the new game under a random id from 9000 values without checking whether the id is taken | game "G1234" is playing, and a later `createGame` draws "G1234" again: the playing game is replaced by a waiting game with no seats | an id already in use is never reused while its game is live | medium, not executed | GameEngine.Engine.CreateGame, GameEngine.CollisionReplacesLiveGame | GameEngine.Engine.CreateGameUnique |

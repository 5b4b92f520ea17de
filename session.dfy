/** One game session as a value: its fields, what `joinGame` and `playMove`
    do to them, the per-seat messages they emit, and the invariant every
    registered game keeps. */
module Session {
  import opened Common
  import opened Board

  /** A WebSocket connection, identified by an opaque number. */
  type Socket = int
  type GameId = string

  datatype Status = Waiting | Playing | Finished

  /** `winner`: null, "egality", or the index of the winning seat. */
  datatype Winner = NoWinner | Draw | Seat(index: int)

  /** The pending creator `{ ws, name }`, not yet seated. */
  datatype Creator = Creator(ws: Socket, name: string)

  /** The fields of a game object, `id` aside (the registry holds it). */
  datatype GameState = GameState(
    players: seq<Socket>,
    names: seq<string>,
    creator: Option<Creator>,
    board: Grid,
    turn: int,
    status: Status,
    winner: Winner)

  datatype Move = Move(row: int, col: int, symbol: Cell)

  /** Payloads sent to a seat; `game_over` keeps the `update` fields (with
      `yourTurn` false and `currentPlayer` null) and adds `winner`. */
  datatype Message =
    | StartGame(gameId: GameId, board: Grid, yourTurn: bool, symbol: Cell, opponent: string)
    | Update(board: Grid, lastMove: Move, yourTurn: bool, currentPlayer: Option<string>)
    | GameOver(board: Grid, lastMove: Move, yourTurn: bool, currentPlayer: Option<string>, winner: string)

  /** One `ws.send` to one seat's socket. */
  datatype Outbound = Outbound(to: Socket, msg: Message)

  datatype JoinError = NotFound | AlreadyFinished | Full
  datatype JoinResult = Joined(id: GameId) | Rejected(error: JoinError)

  datatype JoinReply = JoinReply(state: GameState, result: JoinResult, out: seq<Outbound>)
  datatype PlayReply = PlayReply(state: GameState, out: seq<Outbound>)

  const EgalityMarker: string := "egality"

  /** The text of the `error` reply for each refusal. */
  function ErrorText(e: JoinError): string {
    match e
    case NotFound => "Partie introuvable."
    case AlreadyFinished => "Partie terminée."
    case Full => "Partie pleine."
  }

  /** Each refusal has its own reply text, so the client can tell them
      apart. */
  lemma ErrorTextsDistinct(e1: JoinError, e2: JoinError)
    ensures ErrorText(e1) == ErrorText(e2) <==> e1 == e2
  {
  }

  /** Seat 0 plays "X", any other seat "O". */
  function SeatMark(i: int): Cell {
    if i == 0 then X else O
  }

  /** What `createGame` builds: no seats, the creator pending, an empty
      board, turn 0, waiting, no winner. */
  function NewGame(ws: Socket, name: string): GameState {
    GameState([], [], Some(Creator(ws, name)), EmptyGrid(), 0, Waiting, NoWinner)
  }

  /** What the two handlers need of a game to read only cells and seats
      that exist. */
  predicate WellFormed(g: GameState) {
    && IsGrid(g.board)
    && |g.players| == |g.names| <= 2
    && (g.turn == 0 || g.turn == 1)
    && (g.status != Waiting ==> |g.players| == 2)
    && (g.winner.Seat? ==> 0 <= g.winner.index < 2)
  }

  /** What every registered game satisfies between two handler calls. */
  predicate Inv(g: GameState) {
    && WellFormed(g)
    && (|g.names| == 2 ==> g.names[0] != g.names[1])
    && (g.creator.Some? <==> |g.players| == 0)
    && (g.status == Waiting <==> |g.players| < 2)
    && (g.status == Waiting ==> g.board == EmptyGrid())
    && (g.status == Playing ==> !HasWinningLine(g.board) && !IsFull(g.board))
    && (g.winner == NoWinner <==> g.status != Finished)
    && (g.winner.Seat? ==>
          g.winner.index == g.turn
          && HasLine(g.board, SeatMark(g.turn)) && !HasLine(g.board, SeatMark(1 - g.turn)))
    && (g.winner == Draw ==> IsFull(g.board) && !HasWinningLine(g.board))
  }

  lemma NewGameInvariant(ws: Socket, name: string)
    ensures Inv(NewGame(ws, name))
    ensures NewGame(ws, name).status == Waiting && NewGame(ws, name).players == []
  {
    var b := EmptyGrid();
    assert !HasLine(b, X) && !HasLine(b, O);
    assert !IsFull(b) by { assert b[0][0] == Empty; }
  }

  // ---------------------------------------------------------------------
  // joinGame

  /** Lines 34-43: a pending creator takes the next seat (seat 0), with the
      joining socket when the joining name is the creator's. */
  function SeatCreator(g: GameState, ws: Socket, name: string): GameState {
    match g.creator
    case None => g
    case Some(c) =>
      var seated := if c.name == name then c.(ws := ws) else c;
      g.(players := g.players + [seated.ws], names := g.names + [seated.name], creator := None)
  }

  /** The `start_game` payload for seat i. */
  function StartFor(g: GameState, gameId: GameId, i: int): Outbound
    requires |g.players| == |g.names| == 2 && 0 <= i < 2
  {
    Outbound(g.players[i], StartGame(gameId, g.board, i == g.turn, SeatMark(i), g.names[1 - i]))
  }

  function StartMessages(g: GameState, gameId: GameId): seq<Outbound>
    requires |g.players| == |g.names| == 2
  {
    seq(|g.players|, i requires 0 <= i < |g.players| => StartFor(g, gameId, i))
  }

  /** Lines 58-80: two seats start (or restart) the game and notify both. */
  function Start(g: GameState, gameId: GameId): JoinReply
    requires |g.players| == |g.names|
  {
    if |g.players| == 2 then
      var s := g.(status := Playing);
      JoinReply(s, Joined(gameId), StartMessages(s, gameId))
    else
      JoinReply(g.(status := Waiting), Joined(gameId), [])
  }

  /** `joinGame` on a game that exists. */
  function Join(g: GameState, gameId: GameId, ws: Socket, name: string): JoinReply
    requires WellFormed(g)
  {
    if g.status == Finished then JoinReply(g, Rejected(AlreadyFinished), [])
    else
      var g1 := SeatCreator(g, ws, name);
      var existing := IndexOf(g1.names, name);
      if existing != -1 then Start(g1.(players := g1.players[existing := ws]), gameId)
      else if |g1.players| >= 2 then JoinReply(g1, Rejected(Full), [])
      else Start(g1.(players := g1.players + [ws], names := g1.names + [name]), gameId)
  }

  // ---------------------------------------------------------------------
  // playMove

  /** What the per-seat payloads can be built from: seats and names
      parallel, the turn a seat while playing, a winner once finished. */
  predicate Notifiable(g: GameState) {
    && |g.players| == |g.names|
    && (g.status == Playing ==> 0 <= g.turn < |g.names|)
    && (g.status == Finished ==>
          g.winner == Draw || (g.winner.Seat? && 0 <= g.winner.index < |g.names|))
  }

  /** `winner` of a `game_over`: the marker for a draw, else the winning
      seat's name. */
  function WinnerText(g: GameState): string
    requires Notifiable(g) && g.status == Finished
  {
    if g.winner == Draw then EgalityMarker else g.names[g.winner.index]
  }

  /** Lines 112-131: the payload seat i receives after a move. */
  function UpdateFor(g: GameState, i: int, mv: Move): Outbound
    requires Notifiable(g) && 0 <= i < |g.players|
  {
    var yourTurn := if g.status == Playing then i == g.turn else false;
    var current := if g.status == Playing then Some(g.names[g.turn]) else None;
    var msg :=
      if g.status == Finished then GameOver(g.board, mv, yourTurn, current, WinnerText(g))
      else Update(g.board, mv, yourTurn, current);
    Outbound(g.players[i], msg)
  }

  function UpdateMessages(g: GameState, mv: Move): seq<Outbound>
    requires Notifiable(g)
  {
    seq(|g.players|, i requires 0 <= i < |g.players| => UpdateFor(g, i, mv))
  }

  /** The guards of lines 87-94 (game present aside): the game is playing,
      the socket's first seat is the seat on turn, the cell is on the board
      and empty. */
  predicate Accepts(g: GameState, ws: Socket, row: int, col: int)
    requires IsGrid(g.board)
  {
    && g.status == Playing
    && IndexOf(g.players, ws) == g.turn
    && InBounds(row, col)
    && g.board[row][col] == Empty
  }

  /** Lines 96-109: the accepted move applied; the turn flips unless
      `checkWinner` reports the mover's mark or "egality". */
  function Apply(g: GameState, row: int, col: int): GameState
    requires IsGrid(g.board) && InBounds(row, col)
  {
    var symbol := SeatMark(g.turn);
    var board := SetCell(g.board, row, col, symbol);
    var result := CheckWinner(board);
    if result == Win(symbol) then g.(board := board, status := Finished, winner := Seat(g.turn))
    else if result == Egality then g.(board := board, status := Finished, winner := Draw)
    else g.(board := board, turn := 1 - g.turn)
  }

  /** `playMove` on a game that exists. */
  function Play(g: GameState, ws: Socket, row: int, col: int): PlayReply
    requires WellFormed(g)
  {
    if !Accepts(g, ws, row, col) then PlayReply(g, [])
    else
      var g' := Apply(g, row, col);
      PlayReply(g', UpdateMessages(g', Move(row, col, SeatMark(g.turn))))
  }
}

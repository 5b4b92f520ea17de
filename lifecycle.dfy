/** A game across any sequence of requests handled one at a time: the
    invariant holds throughout, "finished" is absorbing, the status only
    moves forward, marks are never erased, and seats keep their names. */
module Lifecycle {
  import opened Common
  import opened Board
  import opened Session
  import opened SessionProperties

  /** A `join_game` or `play` request for one game. */
  datatype Request =
    | JoinRequest(ws: Socket, name: string)
    | PlayRequest(ws: Socket, row: int, col: int)

  function Step(g: GameState, gameId: GameId, q: Request): (g': GameState)
    requires Inv(g)
    ensures Inv(g')
  {
    match q
    case JoinRequest(ws, name) =>
      JoinPreservesInv(g, gameId, ws, name);
      Join(g, gameId, ws, name).state
    case PlayRequest(ws, row, col) =>
      PlayPreservesInv(g, ws, row, col);
      Play(g, ws, row, col).state
  }

  function Run(g: GameState, gameId: GameId, qs: seq<Request>): (g': GameState)
    requires Inv(g)
    ensures Inv(g')
    decreases |qs|
  {
    if qs == [] then g else Run(Step(g, gameId, qs[0]), gameId, qs[1..])
  }

  /** waiting < playing < finished */
  function Rank(s: Status): nat {
    match s
    case Waiting => 0
    case Playing => 1
    case Finished => 2
  }

  /** Once finished, no request changes the game. */
  lemma {:induction false} FinishedAbsorbing(g: GameState, gameId: GameId, qs: seq<Request>)
    requires Inv(g) && g.status == Finished
    ensures Run(g, gameId, qs) == g
    decreases |qs|
  {
    if qs != [] {
      match qs[0] {
        case JoinRequest(ws, name) => JoinFinished(g, gameId, ws, name);
        case PlayRequest(ws, row, col) => PlayIgnored(g, ws, row, col);
      }
      FinishedAbsorbing(g, gameId, qs[1..]);
    }
  }

  lemma StepForward(g: GameState, gameId: GameId, q: Request)
    requires Inv(g)
    ensures var g' := Step(g, gameId, q);
      && Rank(g.status) <= Rank(g'.status)
      && g.names <= g'.names
      && forall r, c | 0 <= r < 3 && 0 <= c < 3 && g.board[r][c] != Empty :: g'.board[r][c] == g.board[r][c]
  {
    match q
    case JoinRequest(ws, name) =>
      JoinOutcome(g, gameId, ws, name);
    case PlayRequest(ws, row, col) =>
      PlayNeverErases(g, ws, row, col);
  }

  /** The status never moves back (waiting -> playing -> finished), the
      names already seated keep their seats, and every mark on the board
      stays where it is. */
  lemma {:induction false} RunForward(g: GameState, gameId: GameId, qs: seq<Request>)
    requires Inv(g)
    ensures var g' := Run(g, gameId, qs);
      && Rank(g.status) <= Rank(g'.status)
      && g.names <= g'.names
      && forall r, c | 0 <= r < 3 && 0 <= c < 3 && g.board[r][c] != Empty :: g'.board[r][c] == g.board[r][c]
    decreases |qs|
  {
    if qs != [] {
      var g1 := Step(g, gameId, qs[0]);
      StepForward(g, gameId, qs[0]);
      RunForward(g1, gameId, qs[1..]);
    }
  }
}

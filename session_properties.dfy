/** What `joinGame` and `playMove` promise about one game, proved of the
    value model in module Session. */
module SessionProperties {
  import opened Common
  import opened Board
  import opened Session

  // ---------------------------------------------------------------------
  // playMove

  /** A move is ignored (no change, no message) exactly when the game is
      not playing, the socket's first seat is not the seat on turn, the
      cell is off the board, or the cell is taken. */
  lemma PlayIgnored(g: GameState, ws: Socket, row: int, col: int)
    requires Inv(g)
    ensures (g.status != Playing || IndexOf(g.players, ws) != g.turn || !InBounds(row, col)
             || g.board[row][col] != Empty)
            <==> Play(g, ws, row, col) == PlayReply(g, [])
  {
    if Accepts(g, ws, row, col) {
      var g' := Play(g, ws, row, col).state;
      assert g'.board[row][col] != g.board[row][col];
    }
  }

  /** An accepted move writes the mover's mark (X for seat 0, O for seat 1)
      into the one empty target cell; every other cell and the seats are
      unchanged. */
  lemma PlayPlacesOneMark(g: GameState, ws: Socket, row: int, col: int)
    requires Inv(g)
    requires g.status == Playing && IndexOf(g.players, ws) == g.turn
    requires InBounds(row, col) && g.board[row][col] == Empty
    ensures var g' := Play(g, ws, row, col).state;
      && IsGrid(g'.board)
      && g'.board[row][col] == (if g.players[0] == ws then X else O)
      && (forall r, c | 0 <= r < 3 && 0 <= c < 3 && (r, c) != (row, col) :: g'.board[r][c] == g.board[r][c])
      && g'.players == g.players && g'.names == g.names && g'.creator == g.creator
  {
  }

  /** No call ever empties a cell or changes a mark that is on the board. */
  lemma PlayNeverErases(g: GameState, ws: Socket, row: int, col: int)
    requires Inv(g)
    ensures IsGrid(Play(g, ws, row, col).state.board)
    ensures forall r, c | 0 <= r < 3 && 0 <= c < 3 && g.board[r][c] != Empty ::
      Play(g, ws, row, col).state.board[r][c] == g.board[r][c]
  {
  }

  /** After an accepted move, stated against the line definition: if the
      mover owns a line the game is finished, won by the mover's seat, turn
      unchanged; else if the board is full it is finished as a draw; else it
      goes on with the other seat on turn. */
  lemma PlayOutcome(g: GameState, ws: Socket, row: int, col: int)
    requires Inv(g)
    requires g.status == Playing && IndexOf(g.players, ws) == g.turn
    requires InBounds(row, col) && g.board[row][col] == Empty
    ensures var g' := Play(g, ws, row, col).state;
      var mark := SeatMark(g.turn);
      && IsGrid(g'.board)
      && (HasLine(g'.board, mark) ==>
            g'.status == Finished && g'.winner == Seat(g.turn) && g'.turn == g.turn)
      && (!HasLine(g'.board, mark) && IsFull(g'.board) ==>
            g'.status == Finished && g'.winner == Draw && g'.turn == g.turn)
      && (!HasLine(g'.board, mark) && !IsFull(g'.board) ==>
            g'.status == Playing && g'.winner == NoWinner && g'.turn == 1 - g.turn)
  {
    var mark := SeatMark(g.turn);
    var b' := SetCell(g.board, row, col, mark);
    NewLineBelongsToMover(g.board, row, col, mark);
    CheckWinnerCorrect(b');
    if HasLine(b', mark) {
      CheckWinnerNamesOwner(b', mark);
    }
  }

  /** Every registered game keeps Inv across `playMove`. */
  lemma PlayPreservesInv(g: GameState, ws: Socket, row: int, col: int)
    requires Inv(g)
    ensures Inv(Play(g, ws, row, col).state)
  {
    if Accepts(g, ws, row, col) {
      var mark := SeatMark(g.turn);
      var b' := SetCell(g.board, row, col, mark);
      NewLineBelongsToMover(g.board, row, col, mark);
      CheckWinnerCorrect(b');
      assert SeatMark(1 - g.turn) != mark;
    }
  }

  /** After an accepted move each seat receives one payload on its socket:
      `game_over` exactly when the game is finished, `update` otherwise;
      `yourTurn` only for the seat now on turn while playing;
      `currentPlayer` that seat's name while playing, else null; the winner
      text is the mover's name or the draw marker. */
  lemma PlayNotifies(g: GameState, ws: Socket, row: int, col: int)
    requires Inv(g)
    requires g.status == Playing && IndexOf(g.players, ws) == g.turn
    requires InBounds(row, col) && g.board[row][col] == Empty
    ensures var r := Play(g, ws, row, col);
      var g' := r.state;
      && |r.out| == 2 && |g'.names| == 2 && 0 <= g'.turn < 2
      && forall i | 0 <= i < 2 ::
        && r.out[i].to == g.players[i]
        && (r.out[i].msg.Update? || r.out[i].msg.GameOver?)
        && (r.out[i].msg.GameOver? <==> g'.status == Finished)
        && r.out[i].msg.board == g'.board
        && r.out[i].msg.lastMove == Move(row, col, SeatMark(g.turn))
        && r.out[i].msg.yourTurn == (g'.status == Playing && i == g'.turn)
        && r.out[i].msg.currentPlayer == (if g'.status == Playing then Some(g.names[g'.turn]) else None)
        && (r.out[i].msg.GameOver? ==>
              r.out[i].msg.winner == if g'.winner == Draw then EgalityMarker else g.names[g.turn])
  {
    PlayPreservesInv(g, ws, row, col);
  }

  // ---------------------------------------------------------------------
  // joinGame

  /** A finished game refuses every join and is left as it was. */
  lemma JoinFinished(g: GameState, gameId: GameId, ws: Socket, name: string)
    requires Inv(g) && g.status == Finished
    ensures Join(g, gameId, ws, name) == JoinReply(g, Rejected(AlreadyFinished), [])
    ensures ErrorText(Join(g, gameId, ws, name).result.error) == "Partie terminée."
  {
  }

  /** The first join seats the pending creator in seat 0 (with the joining
      socket when the names match, else the creator's old socket) and clears
      it; a different name then takes seat 1 and the game starts. */
  lemma JoinSeatsCreator(g: GameState, gameId: GameId, ws: Socket, name: string)
    requires Inv(g) && g.creator.Some?
    ensures var r := Join(g, gameId, ws, name);
      var c := g.creator.value;
      && r.result == Joined(gameId)
      && r.state.creator == None
      && r.state.board == g.board && r.state.turn == g.turn
      && (name == c.name ==>
            r.state.players == [ws] && r.state.names == [c.name]
            && r.state.status == Waiting && r.out == [])
      && (name != c.name ==>
            r.state.players == [c.ws, ws] && r.state.names == [c.name, name]
            && r.state.status == Playing && |r.out| == 2)
  {
  }

  /** A seated name only gets its socket replaced: names, board, turn,
      status and winner are untouched. */
  lemma JoinRebindsSeat(g: GameState, gameId: GameId, ws: Socket, name: string, i: int)
    requires Inv(g) && g.status != Finished && g.creator.None?
    requires 0 <= i < |g.names| && g.names[i] == name
    ensures Join(g, gameId, ws, name).state == g.(players := g.players[i := ws])
    ensures Join(g, gameId, ws, name).result == Joined(gameId)
  {
    assert IndexOf(g.names, name) == i;
  }

  /** Once the creator sits alone in seat 0, a new name takes seat 1 on
      its own socket and the game starts; board and turn are untouched. */
  lemma JoinSeatsNewcomer(g: GameState, gameId: GameId, ws: Socket, name: string)
    requires Inv(g) && g.creator.None? && |g.players| == 1 && name !in g.names
    ensures var r := Join(g, gameId, ws, name);
      && r.result == Joined(gameId)
      && r.state.players == g.players + [ws] && r.state.names == g.names + [name]
      && r.state.status == Playing && r.state.creator == None
      && r.state.board == g.board && r.state.turn == g.turn && r.state.winner == g.winner
      && |r.out| == 2
  {
  }

  /** A new name arriving at a game with two seats is refused as full and
      the game is left as it was. */
  lemma JoinFull(g: GameState, gameId: GameId, ws: Socket, name: string)
    requires Inv(g) && g.status != Finished
    requires name !in g.names && |g.players| == 2
    ensures Join(g, gameId, ws, name) == JoinReply(g, Rejected(Full), [])
    ensures ErrorText(Join(g, gameId, ws, name).result.error) == "Partie pleine."
  {
  }

  /** The join outcome: refused as finished exactly on a finished game,
      refused as full exactly when a new name meets two seats, and a refusal
      changes nothing and sends nothing. An accepted join leaves the game
      playing exactly when two seats are filled and then sends `start_game`
      to both seats (mark by index, `yourTurn` for the seat on turn, the
      other seat's name as opponent); otherwise it is waiting and sends
      nothing. */
  lemma JoinOutcome(g: GameState, gameId: GameId, ws: Socket, name: string)
    requires Inv(g)
    ensures var r := Join(g, gameId, ws, name);
      && (r.result == Rejected(AlreadyFinished) <==> g.status == Finished)
      && (r.result == Rejected(Full) <==>
            g.status != Finished && name !in g.names && |g.players| == 2)
      && (r.result.Rejected? ==> r.state == g && r.out == [])
      && (r.result.Joined? ==>
            && r.result.id == gameId
            && |r.state.players| == |r.state.names| <= 2
            && (r.state.status == Playing <==> |r.state.players| == 2)
            && (r.state.status == Waiting <==> |r.state.players| < 2)
            && (r.state.status == Waiting ==> r.out == [])
            && (r.state.status == Playing ==>
                  |r.out| == 2
                  && forall i | 0 <= i < 2 ::
                       r.out[i] == Outbound(r.state.players[i],
                         StartGame(gameId, r.state.board, i == r.state.turn,
                                   if i == 0 then X else O, r.state.names[1 - i]))))
  {
    if g.status != Finished && g.creator.None? && name in g.names {
      JoinRebindsSeat(g, gameId, ws, name, IndexOf(g.names, name));
    }
  }

  /** Every registered game keeps Inv across `joinGame`; in particular
      seats and names stay parallel, distinct and at most two. */
  lemma JoinPreservesInv(g: GameState, gameId: GameId, ws: Socket, name: string)
    requires Inv(g)
    ensures Inv(Join(g, gameId, ws, name).state)
  {
    if g.status != Finished {
      var g1 := SeatCreator(g, ws, name);
      assert NoDuplicates(g1.names);
      var e := IndexOf(g1.names, name);
      if e == -1 && |g1.players| < 2 {
        var names := g1.names + [name];
        assert forall i | 0 <= i < |g1.names| :: g1.names[i] != name;
        assert NoDuplicates(names);
      }
      var b := EmptyGrid();
      assert !HasLine(b, X) && !HasLine(b, O);
      assert !IsFull(b) by { assert b[0][0] == Empty; }
    }
  }
}

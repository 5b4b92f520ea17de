/** The engine module: the `games` registry and the four operations that
    change or read it, working in place on game objects. Each method is
    proved against the value model (Session, Lobby). */
module GameEngine {
  import opened Common
  import opened Board
  import opened Session
  import opened Lobby
  import SessionProperties

  /** A game object, whose fields `joinGame` and `playMove` update in
      place; `board` is the 3x3 array a move writes one cell of. */
  class Game {
    const id: GameId
    var players: seq<Socket>
    var names: seq<string>
    var creator: Option<Creator>
    const board: array2<Cell>
    var turn: int
    var status: Status
    var winner: Winner

    /** The board has three rows of three cells. */
    predicate Sized() {
      board.Length0 == 3 && board.Length1 == 3
    }

    /** The board's contents as a value. */
    function Cells(): (b: Grid)
      reads board
      requires Sized()
      ensures IsGrid(b)
    {
      [ [board[0, 0], board[0, 1], board[0, 2]],
        [board[1, 0], board[1, 1], board[1, 2]],
        [board[2, 0], board[2, 1], board[2, 2]] ]
    }

    /** Cell (r, c) of the value is cell (r, c) of the array. */
    lemma CellsAt(r: int, c: int)
      requires Sized() && 0 <= r < 3 && 0 <= c < 3
      ensures Cells()[r][c] == board[r, c]
    { }

    /** The value the fields and the board hold. */
    function State(): GameState
      reads this, board
      requires Sized()
    {
      GameState(players, names, creator, Cells(), turn, status, winner)
    }

    ghost predicate Valid()
      reads this, board
    {
      Sized() && Inv(State())
    }

    /** Lines 9-22 of `createGame`. */
    constructor (id: GameId, ws: Socket, name: string)
      ensures Valid() && this.id == id && fresh(board)
      ensures State() == NewGame(ws, name)
    {
      this.id := id;
      players := [];
      names := [];
      creator := Some(Creator(ws, name));
      board := new Cell[3, 3]((r, c) => Empty);
      turn := 0;
      status := Waiting;
      winner := NoWinner;
      new;
      NewGameInvariant(ws, name);
      GridExtensional(Cells(), EmptyGrid());
    }

    /** Lines 31-82 of `joinGame`, once the game is found: the fields
        become what Session.Join makes of them and the `start_game`
        payloads are returned instead of sent. */
    method Join(gameId: GameId, ws: Socket, name: string) returns (result: JoinResult, out: seq<Outbound>)
      requires Valid()
      modifies this
      ensures Valid()
      ensures var r := Session.Join(old(State()), gameId, ws, name);
        State() == r.state && result == r.result && out == r.out
    {
      SessionProperties.JoinPreservesInv(State(), gameId, ws, name);
      if status == Finished {
        return Rejected(AlreadyFinished), [];
      }
      if creator.Some? && creator.value.name == name {
        creator := Some(creator.value.(ws := ws));
      }
      if creator.Some? {
        players := players + [creator.value.ws];
        names := names + [creator.value.name];
        creator := None;
      }
      var existing := IndexOf(names, name);
      if existing != -1 {
        players := players[existing := ws];
      } else {
        if |players| >= 2 {
          return Rejected(Full), [];
        }
        players := players + [ws];
        names := names + [name];
      }
      if |players| == 2 {
        status := Playing;
        out := Starts(gameId);
      } else {
        status := Waiting;
        out := [];
      }
      result := Joined(gameId);
    }

    /** Lines 87-131 of `playMove`, once the game is found: the guards,
        the write of one cell, `checkWinner`, the status and turn update,
        and the per-seat payloads returned instead of sent. */
    method Play(ws: Socket, row: int, col: int) returns (out: seq<Outbound>)
      requires Valid()
      modifies this, board
      ensures Valid()
      ensures var r := Session.Play(old(State()), ws, row, col);
        State() == r.state && out == r.out
    {
      SessionProperties.PlayPreservesInv(State(), ws, row, col);
      if status != Playing {
        return [];
      }
      var playerIndex := IndexOf(players, ws);
      if playerIndex != turn {
        return [];
      }
      if row < 0 || row > 2 || col < 0 || col > 2 {
        return [];
      }
      CellsAt(row, col);
      if board[row, col] != Empty {
        return [];
      }
      ghost var g1 := Apply(State(), row, col);
      var symbol := if playerIndex == 0 then X else O;
      Place(row, col, symbol);
      var result := CheckWinner(Cells());
      if result == Win(symbol) {
        status := Finished;
        winner := Seat(playerIndex);
      } else if result == Egality {
        status := Finished;
        winner := Draw;
      } else {
        turn := 1 - turn;
      }
      assert State() == g1 && Notifiable(g1);
      out := Updates(Move(row, col, symbol));
    }

    /** Line 97: one cell of the board is written in place. */
    method Place(row: int, col: int, symbol: Cell)
      requires Sized() && 0 <= row < 3 && 0 <= col < 3
      modifies board
      ensures Cells() == SetCell(old(Cells()), row, col, symbol)
    {
      ghost var before := Cells();
      board[row, col] := symbol;
      GridExtensional(Cells(), SetCell(before, row, col, symbol));
    }

    /** Lines 166-171 for this game: whether the lobby lists it, and the
        name it is listed under. */
    method Listing() returns (listed: bool, shownAs: string)
      requires Sized()
      ensures listed == Joinable(State()) && shownAs == Label(State())
    {
      var hasRoom := |players| < 2;
      var notFinished := status != Finished;
      listed := hasRoom && notFinished;
      shownAs :=
        if creator.Some? then creator.value.name
        else if |names| > 0 && names[0] != "" then names[0]
        else "???";
    }

    /** Lines 62-77: the `start_game` payload for each seat, in seat order. */
    method Starts(gameId: GameId) returns (out: seq<Outbound>)
      requires Sized() && |players| == |names| == 2
      ensures out == StartMessages(State(), gameId)
    {
      var snapshot := Cells();
      ghost var all := StartMessages(State(), gameId);
      out := [];
      var i := 0;
      while i < |players|
        invariant 0 <= i <= 2
        invariant out == all[..i]
      {
        var msg := StartGame(gameId, snapshot, i == turn, if i == 0 then X else O, names[1 - i]);
        assert all[i] == Outbound(players[i], msg);
        assert all[..i + 1] == all[..i] + [all[i]];
        out := out + [Outbound(players[i], msg)];
        i := i + 1;
      }
    }

    /** Lines 111-131: the `update` or `game_over` payload for each seat. */
    method Updates(mv: Move) returns (out: seq<Outbound>)
      requires Sized() && Notifiable(State())
      ensures out == UpdateMessages(State(), mv)
    {
      var snapshot := Cells();
      ghost var g := State();
      ghost var all := UpdateMessages(g, mv);
      out := [];
      var i := 0;
      while i < |players|
        invariant 0 <= i <= |players|
        invariant out == all[..i]
      {
        var yourTurn := if status == Playing then i == turn else false;
        var current := if status == Playing then Some(names[turn]) else None;
        var msg :=
          if status == Finished then
            GameOver(snapshot, mv, yourTurn, current,
                     if winner == Draw then EgalityMarker else names[winner.index])
          else Update(snapshot, mv, yourTurn, current);
        assert all[i] == Outbound(players[i], msg);
        assert all[..i + 1] == all[..i] + [all[i]];
        out := out + [Outbound(players[i], msg)];
        i := i + 1;
      }
    }
  }

  /** The module-level registry. `order` is the insertion order in which
      the source's Map is iterated. */
  class Engine {
    var games: map<GameId, Game>
    var order: seq<GameId>
    /** The registry as a value: the state of each game. */
    ghost var Sessions: map<GameId, GameState>
    /** The game each board array belongs to, which keeps boards apart. */
    ghost var BoardOwner: map<array2<Cell>, GameId>

    /** Each game is filed under its own id with a board of its own, keeps
        its invariant, and `order` lists the ids once each. */
    ghost predicate Valid()
      reads this, games.Values, BoardOwner.Keys
    {
      && games.Keys == Sessions.Keys
      && (forall id | id in games ::
            && games[id].id == id && games[id].Sized()
            && games[id].board in BoardOwner && BoardOwner[games[id].board] == id
            && games[id].State() == Sessions[id] && WellFormed(Sessions[id]))
      && (forall id {:trigger games[id].Valid()} | id in games :: games[id].Valid())
      && NoDuplicates(order)
      && (forall id :: id in games <==> id in order)
    }

    /** The objects an operation on game `id` may write. */
    function Footprint(id: GameId): set<object>
      reads this
    {
      if id in games then {games[id], games[id].board} else {}
    }

    constructor ()
      ensures Valid()
      ensures Sessions == map[] && order == []
    {
      games := map[];
      order := [];
      Sessions := map[];
      BoardOwner := map[];
    }

    /** `createGame` with the generated id passed in: registers a new
        waiting game under `id`, replacing any game already there (a Map
        keeps a replaced key at its first position). */
    method CreateGame(id: GameId, ws: Socket, name: string)
      requires Valid()
      modifies this
      ensures Valid()
      ensures Sessions == old(Sessions)[id := NewGame(ws, name)]
      ensures order == if id in old(games) then old(order) else old(order) + [id]
    {
      var game := new Game(id, ws, name);
      if id in games {
        Replace(id, game);
      } else {
        Add(id, game);
      }
    }

    /** `createGame` as its id generation evidently intends: an id already
        in use is refused (the caller draws another), so no live game is
        ever replaced. */
    method CreateGameUnique(id: GameId, ws: Socket, name: string) returns (created: bool)
      requires Valid()
      modifies this
      ensures Valid()
      ensures created <==> id !in old(games)
      ensures created ==> Sessions == old(Sessions)[id := NewGame(ws, name)] && order == old(order) + [id]
      ensures !created ==> Sessions == old(Sessions) && order == old(order)
      ensures forall k | k in old(Sessions) :: k in Sessions && Sessions[k] == old(Sessions)[k]
    {
      if id in games {
        return false;
      }
      var game := new Game(id, ws, name);
      Add(id, game);
      created := true;
    }

    /** Files `game` under an id not yet in use, at the end of the order. */
    method Add(id: GameId, game: Game)
      requires id !in games
      requires Valid()
      requires game.id == id && game.Sized() && game.Valid()
      requires game.board !in BoardOwner
      modifies this
      ensures Valid()
      ensures Sessions == old(Sessions)[id := old(game.State())]
      ensures order == old(order) + [id]
    {
      order := order + [id];
      games := games[id := game];
      Sessions := Sessions[id := game.State()];
      BoardOwner := BoardOwner[game.board := id];
      Refiled(id);
    }

    /** Files `game` in place of the game under `id`. */
    method Replace(id: GameId, game: Game)
      requires id in games
      requires Valid()
      requires game.id == id && game.Sized() && game.Valid()
      requires game.board !in BoardOwner
      modifies this
      ensures Valid()
      ensures Sessions == old(Sessions)[id := old(game.State())]
      ensures order == old(order)
    {
      games := games[id := game];
      Sessions := Sessions[id := game.State()];
      BoardOwner := BoardOwner[game.board := id];
      Refiled(id);
    }

    /** `joinGame`: a missing game is refused with no change; otherwise
        Game.Join. */
    method JoinGame(id: GameId, ws: Socket, name: string) returns (result: JoinResult, out: seq<Outbound>)
      requires Valid()
      modifies this, Footprint(id)
      ensures Valid()
      ensures order == old(order)
      ensures id !in old(games) ==>
        result == Rejected(NotFound) && ErrorText(result.error) == "Partie introuvable."
        && out == [] && Sessions == old(Sessions)
      ensures id in old(games) ==>
        var r := Session.Join(old(Sessions)[id], id, ws, name);
        result == r.result && out == r.out && Sessions == old(Sessions)[id := r.state]
    {
      if id !in games {
        return Rejected(NotFound), [];
      }
      ghost var before := Sessions;
      result, out := games[id].Join(id, ws, name);
      Sessions := before[id := Session.Join(before[id], id, ws, name).state];
      Updated(id);
    }

    /** `playMove`: a missing game is ignored; otherwise Game.Play. */
    method PlayMove(id: GameId, ws: Socket, row: int, col: int) returns (out: seq<Outbound>)
      requires Valid()
      modifies this, Footprint(id)
      ensures Valid()
      ensures order == old(order)
      ensures id !in old(games) ==> out == [] && Sessions == old(Sessions)
      ensures id in old(games) ==>
        var r := Session.Play(old(Sessions)[id], ws, row, col);
        out == r.out && Sessions == old(Sessions)[id := r.state]
    {
      if id !in games {
        return [];
      }
      ghost var before := Sessions;
      out := games[id].Play(ws, row, col);
      Sessions := before[id := Session.Play(before[id], ws, row, col).state];
      Updated(id);
    }

    /** Between the previous state and now, a valid game was filed under
        `id` (a new one, or the same object with a new state) and every
        other game, with its board, was left as it was. */
    twostate predicate Refiling(id: GameId)
      reads this, games.Values, BoardOwner.Keys
    {
      && old(Valid())
      && id in games && games[id].board in BoardOwner && BoardOwner[games[id].board] == id
      && games[id].id == id && games[id].Sized() && games[id].Valid()
      && (games[id].board !in old(BoardOwner) || old(BoardOwner)[games[id].board] == id)
      && BoardOwner == old(BoardOwner)[games[id].board := id]
      && games == old(games)[id := games[id]]
      && (order == if id in old(games) then old(order) else old(order) + [id])
      && Sessions == old(Sessions)[id := games[id].State()]
    }

    /** Refiling keeps every game under its own id with a board of its own. */
    twostate lemma RefiledOwners(id: GameId)
      requires Refiling(id)
      ensures forall k | k in games ::
        && games[k].id == k && games[k].Sized()
        && games[k].board in BoardOwner && BoardOwner[games[k].board] == k
    {
      forall k | k in games
        ensures && games[k].id == k && games[k].Sized()
                && games[k].board in BoardOwner && BoardOwner[games[k].board] == k
      {
        if k != id {
          assert old(BoardOwner[games[k].board] == k);
        }
      }
    }

    /** Refiling leaves every other game and its board as they were. */
    twostate lemma Untouched(id: GameId)
      requires Refiling(id)
      requires unchanged(old(games).Values - {games[id]})
      requires unchanged(old(BoardOwner).Keys - {games[id].board})
      ensures forall k | k in games && k != id :: unchanged(games[k]) && unchanged(games[k].board)
    {
      forall k | k in games && k != id
        ensures unchanged(games[k]) && unchanged(games[k].board)
      {
        assert old(BoardOwner[games[k].board] == k);
      }
    }

    /** Refiling keeps each game's state recorded in Sessions. */
    twostate lemma RefiledSessions(id: GameId)
      requires Refiling(id)
      requires unchanged(old(games).Values - {games[id]})
      requires unchanged(old(BoardOwner).Keys - {games[id].board})
      ensures forall k | k in games :: games[k].State() == Sessions[k]
      ensures forall k | k in games :: WellFormed(Sessions[k])
    {
      Untouched(id);
      forall k | k in games
        ensures games[k].State() == Sessions[k]
      {
        if k != id {
          assert old(games[k].State() == Sessions[k]);
        }
      }
    }

    /** Refiling keeps every game's own invariant. */
    twostate lemma RefiledGames(id: GameId)
      requires Refiling(id)
      requires unchanged(old(games).Values - {games[id]})
      requires unchanged(old(BoardOwner).Keys - {games[id].board})
      ensures forall k {:trigger games[k].Valid()} | k in games :: games[k].Valid()
    {
      Untouched(id);
      forall k {:trigger games[k].Valid()} | k in games
        ensures games[k].Valid()
      {
        if k != id {
          assert old(games[k].Valid());
        }
      }
    }

    /** A game updated in place, with every other game left as it was,
        keeps the registry consistent. */
    twostate lemma Updated(id: GameId)
      requires old(Valid())
      requires games == old(games) && order == old(order) && BoardOwner == old(BoardOwner)
      requires id in games && games[id].Valid()
      requires Sessions == old(Sessions)[id := games[id].State()]
      requires unchanged(old(games).Values - {games[id]})
      requires unchanged(old(BoardOwner).Keys - {games[id].board})
      ensures Valid()
    {
      Refiled(id);
    }

    /** Refiling keeps the registry consistent. */
    twostate lemma Refiled(id: GameId)
      requires Refiling(id)
      requires unchanged(old(games).Values - {games[id]})
      requires unchanged(old(BoardOwner).Keys - {games[id].board})
      ensures Valid()
    {
      if id !in old(games) {
        NoDuplicatesAppend(old(order), id);
      }
      RefiledOwners(id);
      RefiledSessions(id);
      RefiledGames(id);
    }

    /** `getAvailableGames`: reads the registry only. */
    method GetAvailableGames() returns (list: seq<Entry>)
      requires Valid()
      ensures list == Available(Sessions, order)
      ensures forall e :: e in list <==>
        e.id in Sessions && Joinable(Sessions[e.id]) && e.creator == Label(Sessions[e.id])
      ensures forall i, j | 0 <= i < j < |list| :: list[i].id != list[j].id
    {
      list := [];
      var i := 0;
      while i < |order|
        invariant 0 <= i <= |order|
        invariant list == Available(Sessions, order[..i])
      {
        var id := order[i];
        var listed, shownAs := games[id].Listing();
        if listed {
          list := list + [Entry(id, shownAs)];
        }
        assert order[..i + 1][..i] == order[..i];
        assert list == Available(Sessions, order[..i + 1]);
        i := i + 1;
      }
      assert order[..i] == order;
      AvailableListsJoinable(Sessions, order);
      AvailableOncePerGame(Sessions, order);
    }
  }

  /** As written, `createGame` files the new game over whatever the drawn id
      already names: a game in play under that id is replaced by a fresh
      waiting game, and its players' seats and board are gone. */
  method CollisionReplacesLiveGame(e: Engine, id: GameId, ws: Socket, name: string)
    requires e.Valid() && id in e.Sessions && e.Sessions[id].status == Playing
    modifies e
    ensures e.Valid()
    ensures id in e.Sessions && e.Sessions[id] != old(e.Sessions[id])
    ensures e.Sessions[id].status == Waiting && e.Sessions[id].players == []
  {
    e.CreateGame(id, ws, name);
  }
}

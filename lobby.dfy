/** The lobby list of `getAvailableGames`: every game with a free seat that
    is not finished, in the registry's insertion order, labelled with a name
    to show. */
module Lobby {
  import opened Common
  import opened Session

  datatype Entry = Entry(id: GameId, creator: string)

  /** Lines 166-168: fewer than two seats taken and not finished. */
  predicate Joinable(g: GameState) {
    |g.players| < 2 && g.status != Finished
  }

  /** Line 171: the pending creator's name, else the name in seat 0 unless it
      is missing or empty (the source's `||` treats "" as absent), else
      "???". */
  function Label(g: GameState): string {
    match g.creator
    case Some(c) => c.name
    case None => if |g.names| > 0 && g.names[0] != "" then g.names[0] else "???"
  }

  /** The list built by the loop over the registry, which visits the ids in
      `order`. */
  function Available(games: map<GameId, GameState>, order: seq<GameId>): seq<Entry>
    decreases |order|
  {
    if order == [] then []
    else
      var id := order[|order| - 1];
      Available(games, order[..|order| - 1])
        + (if id in games && Joinable(games[id]) then [Entry(id, Label(games[id]))] else [])
  }

  /** An entry is listed exactly when its game is registered, visited,
      joinable and the entry carries that game's label. */
  lemma {:induction false} AvailableListsJoinable(games: map<GameId, GameState>, order: seq<GameId>)
    ensures forall e :: e in Available(games, order) <==>
      e.id in order && e.id in games && Joinable(games[e.id]) && e.creator == Label(games[e.id])
    decreases |order|
  {
    if order != [] {
      var front := order[..|order| - 1];
      AvailableListsJoinable(games, front);
      assert order == front + [order[|order| - 1]];
    }
  }

  /** When the registry visits each id once, each game is listed at most
      once. */
  lemma {:induction false} AvailableOncePerGame(games: map<GameId, GameState>, order: seq<GameId>)
    requires NoDuplicates(order)
    ensures NoDuplicates(Available(games, order))
    ensures forall i, j | 0 <= i < j < |Available(games, order)| ::
      Available(games, order)[i].id != Available(games, order)[j].id
    decreases |order|
  {
    if order != [] {
      var front := order[..|order| - 1];
      var id := order[|order| - 1];
      AvailableOncePerGame(games, front);
      AvailableListsJoinable(games, front);
      assert id !in front by {
        forall k | 0 <= k < |front| ensures front[k] != id {
          assert order[k] == front[k];
        }
      }
    }
  }
}

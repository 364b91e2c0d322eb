/** The matchmaking branch of the connection handler (backend/main.go): a
    single package-level slot holds the game waiting for its black player. */
module Matchmaking {
  import opened Wrappers
  import opened Game

  class Matchmaker {
    /** The package-level `game`: the game waiting for black, or null. */
    var game: ChessGame?

    /** Every connection handed to Arrive, in arrival order. */
    ghost var arrivals: seq<Conn>
    /** Every game Arrive created, in creation order. */
    ghost var games: seq<ChessGame>

    /** Arrivals pair up in order: arrivals 2k and 2k+1 are white and black of
        games[k]; after an odd number of arrivals the last one waits, as white
        of the last game, in the slot; after an even number the slot is empty. */
    ghost predicate Valid()
      reads this, game, games
    {
      && |games| == (|arrivals| + 1) / 2
      && (game == null <==> |arrivals| % 2 == 0)
      && (game != null ==>
            && game == games[|games| - 1]
            && game.whiteWebsocket == arrivals[|arrivals| - 1]
            && game.blackWebsocket == None)
      && (forall k :: 0 <= k < |arrivals| / 2 ==>
            games[k].whiteWebsocket == arrivals[2 * k] && games[k].blackWebsocket == Some(arrivals[2 * k + 1]))
    }

    /** At most one game is waiting for a player: the one in the slot. */
    ghost predicate AtMostOneWaiting()
      reads this, games
    {
      forall g :: g in games && g.blackWebsocket == None ==> g == game
    }

    constructor ()
      ensures Valid() && game == null && arrivals == [] && games == []
    {
      game := null;
      arrivals := [];
      games := [];
    }

    lemma OnlyTheSlotWaits()
      requires Valid()
      ensures AtMostOneWaiting()
    {
      forall g | g in games && g.blackWebsocket == None
        ensures g == game
      {
        var k :| 0 <= k < |games| && games[k] == g;
        assert |arrivals| / 2 <= k == |games| - 1;
      }
    }

    /** One upgraded connection reaches the handler. With the slot empty it
        becomes white of a new waiting game; otherwise it joins the waiting
        game as black and the slot is cleared, whatever Join returned. The
        join never fails: a game in the slot always has an empty black slot. */
    method Arrive(ws: Conn)
      requires Valid()
      modifies this, game
      ensures Valid() && AtMostOneWaiting()
      ensures arrivals == old(arrivals) + [ws]
      ensures old(game) == null ==>
                game != null && fresh(game) && game.whiteWebsocket == ws && game.blackWebsocket == None
      ensures old(game) != null ==>
                && game == null
                && old(game).whiteWebsocket == old(game.whiteWebsocket)
                && old(game).blackWebsocket == Some(ws)
    {
      if game == null {
        game := new ChessGame(ws);
        games := games + [game];
      } else {
        var err := game.Join(ws);
        assert err == None;
        game := null;
      }
      arrivals := arrivals + [ws];
      OnlyTheSlotWaits();
    }
  }
}

# simple-chess matchmaking and relay, in Dafny

This project models the server core of a two-player chess relay and proves what it does. Once the websocket plumbing is set aside, the core has three parts:

- **Matchmaker** (`Matchmaking.Matchmaker`). The connection handler keeps one package-level `game` slot. A connection that finds the slot empty becomes white of a new game, which waits in the slot. A connection that finds a game waiting joins it as black, and the slot is cleared.
- **Session** (`Game.ChessGame`). A game has a white connection and a black slot that is filled once. A second join is refused with `ErrCannotJoinStartedGame`.
- **Relay and reader** (`Game.PlayChess`, `Game.ForwardFromWebsocketToChannel`). Once a game is complete, the relay first sends `start` to each side with its colour. It then forwards a message only from the side holding the turn, flips the turn, drops out-of-turn messages and stops at the first `error` message. One reader per connection pushes every message it reads and, at its first failed read, pushes one `error` message and stops.

Connections are opaque ids (`Conn = nat`). A websocket write is an entry `Write(to, msg)` appended to an output sequence. The relay's `select` over the two channels becomes an arbitrary input sequence of `FromWhite(m)` / `FromBlack(m)` events: every interleaving the real loop could see is one such sequence. The reader's blocking reads become a sequence of read outcomes, `ReadOk(m)` or `ReadFailed`.

Files: `wrappers.dfy` (Option), `game.dfy` (module `Game`, backend/game.go), `matchmaking.dfy` (module `Matchmaking`, backend/main.go).

`Message` declares `validate` tags (backend/game.go:15-19), but nothing applies them, and the relay only compares `Type` with `"error"` (backend/game.go:53, 61). So the model forwards any non-`error` message from the side holding the turn, including a half-empty `move` or a `start` (InTurnMessageForwarded has no condition on the message beyond "not an error").

The specification function `Relayed(turnWhite, white, black, events)` says what the turn loop writes: it follows the loop body at backend/game.go:50-69. `TurnAfter(turnWhite, events)` says where the turn ends up: it follows the `turnWhite` updates at backend/game.go:47, 58 and 66. The loop of `PlayChess` keeps its local `turnWhite` equal to `TurnAfter(true, …)` of the events taken so far. `PlayChess` is proved to produce the two start writes followed by `Relayed(true, …)`. The lemmas below then state what that output means. A reader whose connection breaks pushes `ErrorMessage`, the `Message{Type: "error"}` of backend/game.go:79, which is an error message, so by ErrorEndsRelay nothing is relayed to either side after the relay takes it.

## Model

| member | source | states |
|---|---|---|
| Game.ChessGame.constructor | backend/game.go:22-25 | NewChessGame: the new game's white connection is the given one and its black slot is empty |
| Game.ChessGame.Join | backend/game.go:29-41 | when black is already taken: returns ErrCannotJoinStartedGame and both slots stay as they were; otherwise: black becomes the joining connection, white is unchanged, no error |
| Game.ErrorIndexIsFirstError | backend/game.go:53-63 | ErrorIndex is the first error event from either side: the event there is an error when it is not the length, and every event before it is a non-error |
| Game.PlayChess | backend/game.go:43-70 | the output is `{start, white}` to white, then `{start, black}` to black, then exactly the turn-gated writes with the turn starting at white; when the loop stops, it has taken the events up to and including the first error event; when it does not stop, no event is an error and it has taken them all |
| Game.RelayedAppend | backend/game.go:50-69 | the loop is sequential: taking an error-free prefix and then the rest writes the prefix's writes followed by the rest's from the turn the prefix left |
| Game.InTurnMessageForwarded | backend/game.go:56-67 | at any point of the game, a non-error message from the side holding the turn is written unchanged to the other side, and the turn flips |
| Game.OutOfTurnMessageDropped | backend/game.go:56-67 | at any point of the game, a non-error message from the side not holding the turn writes nothing and leaves the turn as it was |
| Game.OutOfTurnRunDropped | backend/game.go:56-67 | any run of non-error messages from the side not holding the turn (black moving before white) is dropped as a whole: output and final turn are as if it never came |
| Game.ErrorEndsRelay | backend/game.go:52-63 | an error message from either side, whatever the turn, ends the relay: no event after it produces any write |
| Game.RelayedUpToFirstError | backend/game.go:50-69 | the events before the first error decide the whole output |
| Game.RelayAlternates | backend/game.go:47-67 | forwarded writes alternate between the two sides; with the turn starting at white, the first goes to black |
| Game.TurnFlipsPerWrite | backend/game.go:47-67 | the final turn equals the initial turn flipped once per forwarded message |
| Game.NoErrorForwarded | backend/game.go:53-63 | no forwarded message is an error message |
| Game.RelayKeepsSenderOrder | backend/game.go:51-68 | for distinct connections, what black receives is a subsequence, in order, of what white sent, and what white receives is a subsequence of what black sent |
| Game.FailureIndex | backend/game.go:76-80 | the position of the first failed read, or the length when none fails; every read before it succeeded |
| Game.ForwardFromWebsocketToChannel | backend/game.go:72-85 | the reader pushes every successfully read message in order; at the first failure it pushes exactly one `{Type:"error"}`, stops reading and closes; without a failure it pushes every message and does not return |
| Matchmaking.Matchmaker.constructor | backend/main.go:16 | the slot starts empty, with no arrival and no game |
| Matchmaking.Matchmaker.OnlyTheSlotWaits | backend/main.go:25-30 | at most one game is waiting for a player: any game whose black slot is empty is the one in the slot |
| Matchmaking.Matchmaker.Arrive | backend/main.go:25-30 | empty slot: a fresh game with the arrival as white and empty black fills the slot; full slot: the waiting game gets the arrival as black, keeps its white, and the slot is cleared whatever Join returned; Valid() is kept, so arrivals 2k and 2k+1 are white and black of the same game, the slot is empty after an even number of arrivals and holds a game whose white is the last arrival after an odd number, and the slot's game always has an empty black slot, so the handler's Join never fails |

## Left out

- Websocket and HTTP plumbing (the upgrader, origin check, listening, logging, the port printout): I/O through a foreign library.
- Upgrade failure: the handler logs the error and still uses the nil connection; that depends on library behaviour, so every connection in the model is a real one.
- JSON encoding inside ReadJSON and WriteJSON, and the ignored WriteJSON errors: a read is a given outcome and a write is an appended `Write(to, msg)`.
- Goroutines and unbuffered channels: Join's launch of the relay and the two readers is not modelled as a step of its own. PlayChess and ForwardFromWebsocketToChannel are separate methods over the complete pair. The relay's `select` is an arbitrary event sequence, so nothing is said about blocking. After the relay returns, the readers block forever on their sends, and the healthy connection is never closed; the model does not capture this.
- Concurrent handler calls: the package-level `game` is read and written without synchronisation; the model treats arrivals as sequential.
- The `validate` tags on `Message`: nothing applies them, so the model does no field validation.
- Game.RelayKeepsSenderOrder: requires the two connections to differ, because with one connection playing both sides, writes to it cannot be told apart by destination.

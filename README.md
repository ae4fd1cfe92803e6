# Multiplayer snake: client rules and server session core

This project models, in Dafny, the logic core of a small browser snake game
with a socket server.

- **Client rules** (`src/App.jsx`). A single-player snake runs on the wrapped board
  [-10, 10] x [-10, 10]. The model covers the arrow-key rule that refuses a
  reversal, the wrap-around at the edges, and the tick that moves the snake, grows
  it on food or ends the game on a self-collision. It also covers the food counter
  that makes every fifth food a bonus, the final score (trail length minus one) and
  the trimmed-nickname check. The tick, the turn and the wrap are functions
  (`SnakeRules`, `snake_rules.dfy`). The state the component holds between ticks
  is the class `SnakeGame.Game`. Its invariant says the snake stays on the board,
  in one piece and never crosses itself. It also says the snake has one segment
  per food eaten, so the reported score equals the number of foods eaten. The
  nickname form is `Nickname` (`nickname.dfy`).
- **Server session core** (`server/index.js`). The `players` Map and the shared
  food are the fields of the class `Server.GameServer`. It has one method per
  socket event: join, updatePosition, eatFood and disconnect. Each method returns
  the messages the handler emits, in order, as (audience, payload) pairs. Each
  method is proved equal to a pure handler in `ServerState`. Lemmas about whole
  event sequences are stated over those handlers: scores never decrease, other
  connections' records are untouched, disconnect is idempotent, and every players
  snapshot holds exactly the registry's records, one per key.

The random draws are parameters. A coordinate draw is the integer
`floor(Math.random() * 20)` in [0, 20), which gives the coordinate `draw - 10`.
The 20% bonus coin of the server is a boolean. A JavaScript `Map` iterates in
insertion order, so the registry keeps its key order in a sequence beside the map.

Behaviour of the code worth noting:
- Food coordinates lie in [-10, 9], not [-10, 10] (`Math.floor(Math.random() * 20 - 10)`).
- A second join from a connection overwrites its record and resets its score
  (`ServerState.RejoinResetsRecord`).
- Disconnect always broadcasts the players, joined or not.
- The client's score is the trail length minus one. Bonus food counts as 1 there.
  The "+3" of `src/App.jsx:321` is display text only.

## Model

| member | source | states |
|---|---|---|
| Grid.SpawnCoord | src/App.jsx:100-102 | a draw in [0, 20) gives a coordinate in [-10, 9], namely the draw minus 10 |
| Grid.SpawnPoint | src/App.jsx:99-103 | spawned food has y = 0 and x, z in [-10, 9] |
| Grid.SpawnPointCoversRange | src/App.jsx:99-103 | every cell of [-10, 9]² on y = 0 comes from exactly one pair of draws |
| SnakeRules.Requested | src/App.jsx:116-127 | each arrow key asks for a unit heading on x or z |
| SnakeRules.Turn | src/App.jsx:115-128 | the new heading is the old one or the key's; from a unit heading it stays a unit heading and is never the reverse of the old one |
| SnakeRules.TurnRefusesOnlyReversal | src/App.jsx:115-128 | an arrow key is obeyed unless it asks for the exact reverse, in which case the heading is kept |
| SnakeRules.Wrap | src/App.jsx:147-150 | the coordinate always lands in [-10, 10]; on the board it is unchanged; 11 becomes -10 and -11 becomes 10 |
| SnakeRules.WrapIsModular | src/App.jsx:147-150 | for a head one step off the board or on it, wrapping is arithmetic modulo 21 |
| SnakeRules.NextHead | src/App.jsx:140-150 | the new head is always on the board with y = 0 |
| SnakeRules.NextHeadIsNeighbour | src/App.jsx:140-150 | from a head on the board and a unit heading, the new head is the old one moved one step along the heading, modulo the 21-cell board, so a neighbouring cell |
| SnakeRules.Occupied | src/App.jsx:153-155 | the collision test holds exactly when some segment of the trail shares the cell |
| SnakeRules.ReachesFood | src/App.jsx:162-163 | the "distance below 1 on x and z" food test is, on integers, "same cell" |
| SnakeRules.Step | src/App.jsx:139-168 | collision exactly when the new head's cell holds any previous segment, the last one included, and then the trail is unchanged and the score is length - 1; eating exactly when there is no collision and the head reaches the food, and then the length grows by one; otherwise the length stays; without a collision the body follows the head: segment i is old segment i - 1 |
| SnakeRules.StepKeepsWellFormed | src/App.jsx:139-168 | a tick keeps a snake on the board, connected on the wrapped board and free of overlaps |
| SnakeGame.BonusesAmongIsFifth | src/App.jsx:106-108 | of the first n foods spawned, exactly n / 5 are bonus foods |
| SnakeGame.Game.constructor | src/App.jsx:91-96 | the initial trail, food, heading, counter and flags, with the invariant established |
| SnakeGame.Game.SpawnFood | src/App.jsx:98-109 | the food moves to the drawn cell, the counter goes up by one, and the bonus flag is set exactly when the new count is a multiple of 5 |
| SnakeGame.Game.KeyDown | src/App.jsx:112-128 | after game over keys do nothing; otherwise the heading becomes Turn of the old one, never its reverse; the invariant is kept |
| SnakeGame.Game.OnTick | src/App.jsx:136-168 | no tick after game over; otherwise the trail becomes the tick's trail; a collision sets game over and reports length - 1, which equals the number of foods eaten; eating spawns food; the invariant is kept |
| Nickname.LeadingSpaces | src/App.jsx:222 | counts the white space the input starts with: every character before the count is white space and the one at the count, if any, is not |
| Nickname.LengthWithoutTrailing | src/App.jsx:222 | the length once trailing white space is dropped: every character from there on is white space and the one just before, if any, is not |
| Nickname.Trim | src/App.jsx:222 | a non-empty trimmed nickname neither starts nor ends with white space |
| Nickname.TrimIsCore | src/App.jsx:222 | the trimmed text is the slice of the input that starts after its leading white space, with only white space after it |
| Nickname.TrimEmptyIffAllSpace | src/App.jsx:222 | the trimmed text is empty exactly when the input is all white space |
| Nickname.TrimIdempotent | src/App.jsx:222-223 | trimming the trimmed nickname changes nothing |
| Nickname.Submit | src/App.jsx:220-225 | a nickname is submitted exactly when it has a non-space character, and then it is submitted trimmed and non-empty |
| ServerState.GenerateFood | server/index.js:17-26 | generated food has y = 0, x and z in [-10, 9], and the bonus flag of the draw |
| ServerState.Snapshot | server/index.js:39 | the players payload lists, position by position, the record of each key in Map order |
| ServerState.SnapshotIsRegistry | server/index.js:39 | a snapshot holds every record of the registry, nothing else, one per key |
| ServerState.Without | server/index.js:62 | deleting a key leaves exactly the other keys, without duplicates, and changes nothing when the key is absent |
| ServerState.WithoutKeepsOrder | server/index.js:62 | deleting a key listed once takes it out of its place and keeps the other keys in their order |
| ServerState.HandleJoin | server/index.js:31-41 | the joiner's record becomes nickname, positions [(0,0,0)], score 0, over any previous one; a new id goes last in Map order and a known one keeps its place; other records and the food are unchanged; players go to everyone, then the food to the joiner only |
| ServerState.HandleUpdatePosition | server/index.js:43-49 | a registered trail is replaced verbatim and nothing else changes, then players go to everyone; an unknown id changes nothing and sends nothing |
| ServerState.HandleEatFood | server/index.js:51-59 | a registered player's score goes up by 3 on a bonus food and by 1 otherwise, no other record changes, the food is replaced by the generated one, then foodUpdate and players go to everyone in that order; an unknown id changes nothing and sends nothing |
| ServerState.HandleDisconnect | server/index.js:61-64 | the id is removed, every other record and the food are unchanged, and players go to everyone |
| ServerState.Handle | server/index.js:28-65 | every event keeps the registry well formed: each key listed once, each record under its own id, and the food in range |
| ServerState.Run | server/index.js:28-65 | any sequence of events keeps the registry well formed |
| ServerState.DisconnectIdempotent | server/index.js:61-63 | a second disconnect of the same id changes nothing and sends the same message |
| ServerState.ScoreNeverDecreases | server/index.js:31-59 | over any events with no rejoin of the id, its score never decreases, and a removed id never comes back |
| ServerState.OthersLeaveRecordAlone | server/index.js:31-64 | events of other connections leave a connection's record, and whether it exists, untouched |
| ServerState.RejoinResetsRecord | server/index.js:31-37 | a second join of a registered id resets its score to 0 and keeps its place in Map order |
| ServerState.EatFoodAsWritten | server/index.js:51-59 | as written, eatFood from a registered connection ends the server process (no world, nothing sent); from an unknown connection it changes nothing and sends nothing |
| ServerState.HandleAsWritten | server/index.js:28-65 | as written, an event ends the process exactly when it is an eatFood from a registered connection; any other event keeps the registry well formed |
| ServerState.RunAsWritten | server/index.js:28-65 | as written, events are handled one at a time until an eatFood ends the process; the messages sent up to then are kept in order, and a surviving registry is well formed |
| ServerState.RunAsWrittenStopsAtFirstEat | server/index.js:28-65 | as written, the server survives a run exactly when no connection sends eatFood while registered, and then it ends in the registry the intended handlers give |
| ServerState.AliceSessionAsWritten | server/index.js:31-64 | as written, join, update, eat, disconnect sends the join's two messages and the update's players, then ends at the eat; an eat from a connection that never joined is harmless |
| ServerState.AliceSession | server/index.js:31-64 | the session join, update, plain eat, disconnect goes from one record at the origin, to the reported trail, to score 1 with new food, to an empty registry |
| Server.GameServer.constructor | server/index.js:11-15 | an empty registry and the food at (5, 0, 0), not a bonus |
| Server.GameServer.Join | server/index.js:31-41 | the update made in place is HandleJoin's, including the two messages and their order |
| Server.GameServer.UpdatePosition | server/index.js:43-49 | the update made in place is HandleUpdatePosition's; unknown ids are ignored |
| Server.GameServer.EatFood | server/index.js:51-59 | the update made in place is HandleEatFood's: score, new food, foodUpdate before players |
| Server.GameServer.Disconnect | server/index.js:61-64 | the update made in place is HandleDisconnect's |
| Server.GameServer.Dispatch | server/index.js:28-65 | each inbound event runs its handler atomically, as Handle says |

## Left out

- Rendering (`Snake`, `SnakeConnector`, `Food`, `BonusFood`, `Ground`, lights, `Stars`, the Canvas) is presentation and uses floating point.
- React plumbing is timing and event wiring: `useState`, `useEffect`, the 200 ms `setInterval`, the instruction `setTimeout` and the `window` key-listener registration. The model applies each setter call as one field update. Stale closures and repeated updater calls are not modelled.
- `App`'s screens (`handleGameOver`, `handleRestart`, `handleNicknameSubmit`, `GameOverScreen`) only store values or switch screens. The `maxLength={15}` of the input is a browser limit and is not modelled.
- `Math.random` is replaced by draws passed in. The 20% bonus chance is a statistical property and is not stated.
- `SnakeGame.Game.KeyDown`: a single key press never reverses the heading. Two key presses between ticks can (right, then up, then left), and the next tick then crashes into the neck. Key timing between ticks is not modelled.
- Express, the HTTP server, socket.io, CORS, `http.listen` and `console.log` are I/O. Emits are returned as message lists; delivery is not modelled.
- Concurrency is not modelled. The handlers run one at a time on the event loop, so each is one atomic method.
- Player positions are trusted client input, as in the source. The server checks no bounds or continuity on them.
- `Server.GameServer.EatFood` models the intended food replacement, not the TypeError the source raises (see Findings). The code as written is modelled on values by `ServerState.RunAsWritten`, which stops at the crash; restarting the process is not modelled.

## Findings

| source | as written | input that shows it | evidently intended | confidence | as-written member | corrected member |
|---|---|---|---|---|---|---|
| server/index.js:55 | `foods = generateFood()` assigns to `foods`, declared `const` at line 12; JavaScript throws a TypeError there, after the score update of line 54, so the food is never replaced and lines 56-57 never emit | a connection joins, then sends eatFood: the score is written, the TypeError escapes the event listener uncaught and ends the server process, so neither message is sent, every connection drops and the registry and food are lost (ServerState.AliceSessionAsWritten) | the food is replaced by a generated one, and foodUpdate then players are broadcast | high; not executed | ServerState.EatFoodAsWritten | ServerState.HandleEatFood |

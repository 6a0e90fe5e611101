# Game world of a multiplayer arena server, in Dafny

This project models the world state machine of a small Go WebSocket game
server (`main.go`). The world holds a map of players, a map of collectibles,
the arena width and height (800 x 600), and the counter that names
collectibles. Clients move their avatar, and a player picks up any collectible
it overlaps, earning that collectible's points. Every picked-up collectible is
replaced by a freshly numbered one. A background ticker tops the collectibles
up by one per tick while fewer than five exist.

The model strips off networking, locking and randomness and keeps the pure
transitions:

- `World`: the data model (`Game`, `Player`, `Collectible`, ids as
  `PlayerId(n)` for `player_<n>` and `CollectibleId(n)` for `collectible_<n>`),
  the constants, the world invariant `Valid`, and the squared-distance pickup
  test `Overlaps`.
- `Factory`: `createNewPlayer`, `generatePlayerID` and `spawnNewCollectible`.
  A random draw is a parameter: a `Unit` in [0, 1) stands for one
  `rand.Float64()` and a palette index for one `rand.Intn(5)`.
- `Movement`: `handleMoveMessage`. Each axis is applied on its own, and only
  when the new coordinate stays in the arena.
- `Collisions`: `checkCollisions`. The Go map's range order is a parameter.
  The i-th replacement is placed by `rng(i)`.
- `Session`: connect, message dispatch and disconnect from `handleWebSocket`.
  Messages arrive already decoded as `Move(dx, dy)`, `Other` or `DecodeError`.
- `Scheduler`: one tick of `spawnCollectiblesRoutine`, and the five start-up
  spawns of `main`.
- `Server`: any interleaving of joins, moves, collision checks, ticks and
  disconnects, one event per critical section of the world lock, and the
  invariants every such run keeps. Handling a move message takes the lock twice
  (main.go:106 and main.go:109), so other events can fall between its move and
  its collision check. Any other decoded message takes it once, for the
  collision check, and a message that fails to decode does not take it.

Where the code departs from the behaviour the server is meant to have, the model follows the code:

- Player ids are not unique over time. `generatePlayerID` returns
  `player_(number of players + 1)`, so after an earlier disconnect a join can be
  given the id of a player still connected. `Session.JoinCanReuseLiveId`
  exhibits this. The insert then overwrites that player with a fresh one, and
  `Session.JoinResetsLiveScore` shows that a positive score drops to 0. So "ids are never reused" and "a player's score only grows"
  do not hold across such a join.
- The collision check runs after every message that decodes, whatever its
  type, and not only after a move. Only a decode failure skips it.

## Model

| member | source | states |
|---|---|---|
| `World.SquaredDistance` | main.go:173-175 | The square of the distance between the centres is non-negative, and zero for entities centred at the same point |
| `World.Overlaps` | main.go:165 | The pickup test, on squares instead of a square root. `World.OverlapsAgreesWithDistance` proves it decides the same as `distance < r1 + r2`, and the two lemmas below pin down its extremes |
| `World.ConcentricOverlap` | main.go:165 | A player with a positive radius sum always overlaps a collectible centred exactly on it |
| `World.FarApartNeverOverlap` | main.go:165 | When the centres are at least the radius sum apart along either axis, the pickup test fails, whatever the other axis |
| `World.OverlapsAgreesWithDistance` | main.go:173-175 | For the true Euclidean distance `d` and a non-negative radius sum, the squared test agrees with `distance < r1 + r2` both ways |
| `Factory.Scale` | main.go:122-123 | A random fraction times an arena extent lands in [0, extent], and below the extent when the extent is positive |
| `Factory.GeneratePlayerId` | main.go:211-215 | The id is `player_(count+1)`, numbered from 1. It is not checked against the live ids: it is free whenever every live id is numbered within the player count, and `Session.JoinCanReuseLiveId` shows it need not be |
| `Factory.CreateNewPlayer` | main.go:118-128 | A new player has the given id, score 0, radius 20, zero velocity, a color from the five-color palette, and a position inside the arena |
| `Factory.SpawnNewCollectible` | main.go:177-189 | The counter goes up by exactly 1, so the new number exceeds every number handed out before. `collectible_<new counter>` is inserted with radius 10, points 10 and color `#FFD700`, inside the arena. Every other entry and all players are kept |
| `Factory.SpawnMintsFreshId` | main.go:178-188 | If every present collectible number is within the counter, the spawned id is not present yet. The count then grows by exactly 1 and the property still holds |
| `Factory.SpawnKeepsValid` | main.go:177-189 | A spawn keeps the world invariant |
| `Factory.SpawnMany` | main.go:231-233 | k spawns advance the counter by k. An id is present afterwards if and only if it was present before or its number lies in (counter, counter+k]. Entries numbered within the old counter are kept |
| `Factory.SpawnManyGrowsByDraws` | main.go:231-233 | If every present number is within the counter, k spawns grow the count by exactly k, and the property still holds |
| `Factory.SpawnManyKeepsValid` | main.go:177-189 | Each id numbered counter+1 .. counter+k is present after k spawns, stored under its own id and standard. The spawns keep the world invariant |
| `Movement.AxisStep` | main.go:140-151 | One axis moves by exactly the delta or not at all. It takes the delta if and only if the result is within [0, extent], and an out-of-bounds delta is refused, not clamped. A missing delta leaves it unchanged. An in-bounds coordinate stays in bounds |
| `Movement.HandleMove` | main.go:130-153 | If the player is absent, the world is unchanged. Otherwise only that player's x and y change, each by its own axis rule. Score, radius, color, the other players, the collectibles and the counter are untouched, and the invariant is kept |
| `Movement.MoveSplitsIntoAxes` | main.go:139-151 | A move equals its x part followed by its y part, in either order, so a refused dx never blocks a valid dy |
| `Movement.ApplyMovesKeepsBounds` | main.go:142-149 | Any sequence of moves keeps every player inside [0, width] x [0, height] and leaves scores and collectibles unchanged |
| `Movement.MoveScenario` | main.go:140-151 | A player at (10, 10) stays at x = 10 after a move of (-50, 0), then reaches y = 60 after a move of (0, 50) |
| `Collisions.GainIsPointsOfHits` | main.go:164-166 | For any order that visits each collectible once, the score the range loop adds equals the order-free sum of the points of the overlapped collectibles |
| `Collisions.CheckCollisions` | main.go:155-171 | If the player is absent, the world is unchanged. Otherwise the other players are untouched and the player's score becomes the old score plus the points of every collectible it overlapped on entry |
| `Collisions.RemoveHits` | main.go:166-167 | Crediting the gain and deleting the hits removes exactly those keys, shrinks the map by their number and keeps every remaining entry |
| `Collisions.PickupReplacesHits` | main.go:164-170 | Every overlapped collectible present on entry is gone and every other one is kept unchanged. The counter advances by the number of hits, exactly the next ids are added, and the number of collectibles is the same as before |
| `Collisions.CheckCollisionsMintsAboveCounter` | main.go:164-170 | A collision check keeps the count, never moves the counter back, and adds only ids numbered above the old counter |
| `Collisions.CheckCollisionsKeepsValid` | main.go:155-171 | A collision check keeps the world invariant |
| `Collisions.ScoreNeverDecreases` | main.go:166 | Under the invariant a collision check never lowers the player's score |
| `Collisions.CheckCollisionsOrderIrrelevant` | main.go:164 | Two iteration orders of the collectible map give the same resulting world |
| `Session.Connect` | main.go:82-87 | A join stores a score-0, radius-20, palette-colored player under `player_(count+1)`. It changes no other player entry, leaves the collectibles untouched and keeps the invariant |
| `Session.ConnectGrowsIffIdFree` | main.go:211-215 | A join adds a player if and only if the generated id is not live. When the id is live, the player count stays the same because the existing player is overwritten |
| `Session.JoinCanReuseLiveId` | main.go:211-215 | Join, join, disconnect `player_1`, join: the last join is given `player_2`, which is still connected, and the player count does not grow |
| `Session.JoinResetsLiveScore` | main.go:82-87 | When the generated id belongs to a live player with a positive score, the join replaces that player and its score becomes 0 |
| `Session.Dispatch` | main.go:98-110 | A decode failure changes nothing. A move is applied first, and then for any decoded message the sender collects what it overlaps at its possibly new position. Other players are untouched and a message for an absent player is a no-op |
| `Session.DispatchKeepsInvariant` | main.go:98-110 | A handled message keeps the invariant and the number of collectibles, and never lowers the sender's score |
| `Session.Disconnect` | main.go:113-115 | Exactly that player is removed. Every other player and all collectibles, the counter and the bounds are unchanged |
| `Session.PickupScenario` | main.go:104-109 | Player at (100, 100) with radius 20, and a 10-point collectible of radius 10 at (105, 100). After a zero move the score is 10, the old id is gone and exactly one collectible with a new id remains |
| `Scheduler.RespawnTick` | main.go:220-224 | Below five collectibles a tick adds exactly one standard collectible, so 2 becomes 3, not 5. At five or more it changes nothing. It keeps the invariant |
| `Scheduler.TicksApproachFloor` | main.go:217-226 | Starting from at most five collectibles whose numbers are all within the counter, n ticks leave min(5, count + n) |
| `Scheduler.InitialGame` | main.go:231-233 | The start-up world has no players. It holds exactly five collectibles, and an id is present if and only if its number is 1 to 5. The counter is 5 and the world satisfies the invariant |
| `Server.ReceiveIsSuccessor` | main.go:98-110 | A handled message keeps the invariant and the collectible count, and adds only ids above the old counter |
| `Server.ReceiveIsMoveThenCollide` | main.go:104-109 | Handling a move message in one step equals its move followed by its collision check as two separate events, and that two-event run is admissible |
| `Server.StepKeepsInvariant` | main.go:82-224 | Every join, whole message, lone move, lone collision check, tick or disconnect keeps the invariant, keeps the bounds, never moves the counter back, and adds only collectibles numbered above the old counter. A message, a move and a collision check keep the number of collectibles |
| `Server.RunKeepsInvariant` | main.go:74-116 | In any admissible interleaving of events, every player stays inside the arena, scores stay non-negative and every collectible number stays within the counter |
| `Server.NoRevival` | main.go:177-179 | An id already handed out and no longer present never reappears in any later world of a run, so a picked-up collectible is never revived |
| `Server.RunKeepsFiveCollectibles` | main.go:217-235 | From a valid world with five collectibles, every run keeps exactly five |

## Left out

- The WebSocket upgrade, `conn.ReadMessage`, `conn.WriteJSON` and `sendGameState` (main.go:74-80, 89, 92-96, 110, 191-209) are network I/O. A message reaches the model already decoded, and state snapshots are not modelled.
- JSON decoding of `Message` and of the `interface{}` payload (main.go:98-102, 139-146) is replaced by the decoded `Message` datatype. A payload that is not an object is `Move(None, None)`.
- The `sync.RWMutex`, the goroutines and the ticker timing (main.go:19, 218-219, 235) are concurrency. Every critical section is one atomic step: a join's insert, a move, a collision check, a tick and a disconnect. A run is any interleaving of such steps, so a message's move and its collision check may be separated by other events. This leaves out the unlocked gap between `generatePlayerID` and the insert, where two connections can be given the same id. It also leaves out the live maps that escape the read lock in `sendGameState`.
- `math/rand` and its seeding (main.go:119-123, 182-183, 229) are replaced by the draws passed in as parameters.
- `float64` arithmetic is modelled as exact reals. `math.Sqrt` and `math.Pow` are replaced by the squared-distance test, and IEEE-754 rounding is not modelled.
- Go's `int` is 64 bits wide on 64-bit platforms. `Score` and `CollectibleID` are unbounded here, so wrap-around is not modelled. On a 64-bit platform that needs about 2^63 / 10 pickups, since each adds 10 points, or 2^63 spawns.
- The `main` bootstrap and the HTTP listener (main.go:228-240) are left out. Only the five start-up spawns are modelled, as `Scheduler.InitialGame`.
- Logging calls are omitted.
- `Velocity` is never written by the server, so it keeps its zero value.
- Collisions.CheckCollisions: Go's range over a map may or may not visit an entry inserted during the loop (main.go:164-169). So a replacement minted by `spawnNewCollectible` at main.go:168 can be visited by the same check, and if its random position overlaps the player it is picked up too, adding 10 more points and minting another. The model never visits replacements: its gain is exactly the points of the hits present on entry, and it mints one replacement per hit.
- Collisions.PickupReplacesHits: states count conservation and freshness only for worlds in which every present collectible number is within the counter. Without that, a spawn could overwrite an existing entry. Every reachable world satisfies it (`Server.RunKeepsInvariant`).

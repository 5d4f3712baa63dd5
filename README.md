# Grid game core, verified in Dafny

A model of the game logic of a small turn-based grid game written in Go on the ebiten
engine (`main.go`). The board is 5 columns by 6 rows of tiles. Each tile is neutral, the
player's or the enemy's. A side may claim any neutral tile orthogonally next to a tile it
already owns. The player claims by clicking on a tile. The enemy claims a randomly chosen
legal destination. Two counters, `playerTurns` and `enemyTurns`, hand the turn back and
forth, two moves per side. The enemy moves only on frames whose counter `count` leaves
remainder 1 modulo 15.

The project has three modules:

- `Board` (`board.dfy`): the board as a value (`Grid`, column-major like `fieldTiles[x][y]`).
  It holds the starting board and the scan that lists a side's legal destinations, in the
  game's own order and with its repeats. It also holds the pixel hit test.
  Its lemmas prove the scan sound and complete. They also count how often each tile appears
  in the list, and they prove the hit test picks the first inclusive rectangle in x-major order.
- `Turns` (`turns.dfy`): the whole game state as a value (`State`). It models the click, the
  enemy move, `Update`'s `count++` and the turn section of `Draw` as functions. One frame
  (`Tick`) is `Update` followed by `Draw`, and `Run` plays a sequence of frames.
  Lemmas state what each step does and prove that ownership only grows. They also prove the
  counters stay in [0, 2] over any run.
- `GameLoop` (`game.dfy`): the imperative game itself.
  - `FieldTile` objects carry an owner tag that the moves overwrite in place.
  - `class Game` has the fields of the Go struct, plus a ghost `board` that records the tags.
  - Every method follows the Go code: the nested loops, the list of tile references and the
    writes through it.
  - Each method is proved to leave the state its `Turns` counterpart computes (`Snapshot()`).

Two behaviours of the code worth knowing (main.go:187-190, main.go:125-145):

- When the enemy has no legal destination on a gated frame, `enemyTurns` is still
  decremented (main.go:187-190). The enemy cannot stall the turn cycle.
- The destination list is not de-duplicated. A neutral tile next to k tiles of the side
  appears k times (main.go:125-145), which biases the random pick. `Board.LegalMovesCount`
  states the exact multiplicity.

## Model

| member | source | states |
|---|---|---|
| Board.Occupy | main.go:101 | Claiming tile p gives it to the side and leaves every other tile unchanged |
| Board.NeutralNeighboursCount | main.go:126-145 | The four neighbour checks add p once when p is an in-bounds neutral tile orthogonally next to the scanned tile, and never otherwise |
| Board.ColumnCount | main.go:124-147 | Within a column, at every row the scan has reached, each position occurs as often as the side's tiles scanned so far that are next to it, when it is neutral and in bounds, and not at all otherwise |
| Board.ScanCount | main.go:123-148 | At the start of every column, each position occurs as often as the side's tiles in the earlier columns that are next to it, when it is neutral and in bounds, and not at all otherwise |
| Board.LegalMovesCount | main.go:121-150 | A side's destination list holds each in-bounds neutral tile once per orthogonal neighbour the side owns, and nothing else |
| Board.OwnedNeighboursWitness | main.go:125-145 | A positive owned-neighbour count holds exactly when some in-bounds neighbour belongs to the side |
| Board.LegalMovesMembership | main.go:121-150 | Sound and complete: p is listed iff p is in bounds, neutral and orthogonally next to a tile of the side |
| Board.LegalMoveAt | main.go:156 | Every entry of the list, the one the enemy picks included, is an in-bounds neutral tile |
| Board.InitialEnemyMoves | main.go:121-150 | On the starting board the enemy's list is exactly (1, 0), (3, 0), (2, 1); the top edge cuts off (2, -1) |
| Board.AxisHit | main.go:94-99 | The closed-form hit along one axis is an index of a tile on that axis |
| Board.HitTile | main.go:92-99 | A click maps to at most one tile, and that tile is on the board |
| Board.AxisHitFirst | main.go:94-99 | Along one axis the closed form picks the first inclusive span holding the pixel, and none when no span holds it |
| Board.HitTileFirst | main.go:92-109 | A click hits a tile iff it lies in some inclusive rectangle; the tile hit is the first in x-major order, so a shared border pixel goes to the smaller column, then the smaller row |
| Turns.InitialState | main.go:63-76 | The state after initialisation: starting board, count 0, the player's counter at 0 and the enemy's at 2 |
| Turns.DoEnemyMove | main.go:152-158 | The enemy move keeps the board a 5 x 6 grid |
| Turns.Update | main.go:165 | The frame counter goes up by one and nothing else changes |
| Turns.DrawStep | main.go:180-194 | The turn step keeps the board a 5 x 6 grid and leaves the frame counter alone |
| Turns.CanGoMembership | main.go:112-119 | `CanGo` is membership of the coordinates in the list |
| Turns.ClickHitIff | main.go:90-110 | The click reports a hit iff it lies in some tile's inclusive rectangle |
| Turns.ClickMoves | main.go:98-104 | When the first tile hit is a legal destination, it was neutral and next to a player tile; exactly it becomes the player's, and playerTurns drops by exactly one |
| Turns.ClickIgnored | main.go:98-109 | When the click misses, or its tile is not a legal destination, the state is unchanged |
| Turns.ClickOnTile | main.go:98-104 | A click whose first tile is p reports a hit, and claims p exactly when the player may go there |
| Turns.ClickMissed | main.go:92-109 | A click outside every rectangle changes nothing and reports no hit |
| Turns.EnemyMoveEffect | main.go:152-158 | With no destination the board is unchanged; otherwise exactly the chosen tile, a neutral tile next to an enemy tile, becomes the enemy's |
| Turns.GrowsTransitive | main.go:156 | Ownership growth composes over several steps |
| Turns.ClaimsGrow | main.go:156 | Handing neutral tiles to one side never changes an owned tile |
| Turns.ClickClaims | main.go:100-103 | A click only hands neutral tiles to the player |
| Turns.EnemyClaims | main.go:154-157 | The enemy's move only hands neutral tiles to the enemy |
| Turns.DrawStepCounters | main.go:180-194 | In the player's turn either the board and playerTurns stay as they are, or exactly one neutral tile becomes the player's and playerTurns drops by one; enemyTurns becomes 2. In the enemy's turn enemyTurns drops on gated frames only, with or without a move. Once both counters are spent, playerTurns becomes 2 |
| Turns.NoEnemyMoveOutOfTurn | main.go:180-194 | The board is the enemy move's exactly on frames where the enemy acts (not the player's turn, moves left, count % 15 == 1). On every other frame no tile changes to or from the enemy, and outside the player's turn the board is unchanged |
| Turns.NoPlayerMoveOutOfTurn | main.go:180-194 | While playerTurns is not positive no tile changes to or from the player and playerTurns is not spent |
| Turns.DrawStepGrows | main.go:180-194 | A turn step never changes an owned tile |
| Turns.InitialCountersInRange | main.go:75-76 | The counters start within [0, 2] |
| Turns.TickKeepsCounters | main.go:160-194 | One frame keeps both counters within [0, 2] |
| Turns.RunInvariant | main.go:160-194 | Over any sequence of frames the counters never leave [0, 2] (never negative) and no owned tile changes owner |
| Turns.FirstFrameEnemyMoves | main.go:160-194 | In the first frame count is 1, so the enemy claims one of (1, 0), (3, 0), (2, 1) at once and has one move left |
| GameLoop.FieldTile.constructor | main.go:68 | A new tile records its place, its screen position and its owner tag |
| GameLoop.PositionsAppend | main.go:128 | Appending a tile to a list appends its coordinates |
| GameLoop.CanGo | main.go:112-119 | True iff some listed tile has the wanted tile's coordinates, which is list membership of the coordinates |
| GameLoop.Game.WriteIsOccupy | main.go:156 | Writing one tile's tag is `Occupy` on the board |
| GameLoop.Game.InitGame | main.go:63-76 | A fresh 5 x 6 grid; tile [x][y] records (x, y) and screen position (x * 32, y * 32); all neutral but the enemy's (2, 0) and the player's (2, 5); count 0, playerTurns 0, enemyTurns 2 |
| GameLoop.Game.TilesPlayerOrEnemyCanGo | main.go:121-150 | Returns the grid's own tiles at exactly the positions of `LegalMoves`, in scan order with repeats |
| GameLoop.Game.ScanColumn | main.go:124-147 | One column of the scan extends the list by what that column's tiles contribute |
| GameLoop.Game.AppendNeighbours | main.go:125-146 | The four neighbour checks append the tile's neutral neighbours in the order left, right, above, below |
| GameLoop.Game.AppendIfNeutral | main.go:126-130 | One bounds-checked neighbour test appends the neighbour exactly when it is on the grid and neutral |
| GameLoop.Game.ClickedOnTile | main.go:90-110 | Leaves exactly the state, and returns exactly the hit flag, that `Turns.ClickedOnTile` gives |
| GameLoop.Game.MoveIfAllowed | main.go:100-103 | The tile hit becomes the player's and playerTurns drops by one exactly when its coordinates are in the player's list; otherwise nothing changes |
| GameLoop.Game.DoEnemyMove | main.go:152-158 | Writes the tile at the chosen index of the enemy's list, leaving exactly the board `Turns.DoEnemyMove` gives |
| GameLoop.Game.Update | main.go:165 | count goes up by one, as `Turns.Update` |
| GameLoop.Game.Draw | main.go:180-194 | Leaves exactly the state `Turns.DrawStep` gives, so every lemma about `DrawStep` holds of the object |

## Left out

- The ebiten window, `main`, `Layout` and the window setup: platform plumbing.
- Asset loading, `GetSubImage` and the drawing loop at the head of `Draw`: rendering only. They call a graphics library that is not modelled.
- `FrameType`: only its `name` is modelled, as `Owner`. The sprite offsets, frame count and `isAlive` flag only matter for drawing.
- Mouse polling (`IsMouseButtonPressed`, `CursorPosition`) becomes the optional `click` input of `Draw`.
- `rand.Seed` and `rand.Intn` become the `choice` input. It must index the enemy's list whenever that list is non-empty.
- The `initialized` flag in `Update`: construction is the explicit `InitGame` constructor. `Game.Update` models the increment only.
- Screen coordinates are `float64` in the source but always multiples of 32 (main.go:66-67). They are modelled as integers, so the `int(...)` conversions at main.go:94-97 are exact.
- Turns.State.count and GameLoop.Game.count are unbounded naturals. The 64-bit wrap-around of `count++` after 2^63 frames is not modelled.
- Nil checks on neighbour tiles (main.go:127-142): the grid is always fully populated, so they never fail.
- The `log.Fatal` path when the asset file is missing: I/O.

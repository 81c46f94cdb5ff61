# Pac-Man game logic in Dafny

This project models the game logic of a browser Pac-Man, `script.js`: the
`Block` class every wall, food, ghost and pacman is made of, the overlap test
`collision`, the level construction `loadMap`, one game tick `move`, the
reset `resetPosition`, the `Update` step and the key-up handler `movePacman`,
together with the globals they share (`walls`, `foods`, `ghosts`, `pacman`,
`score`, `lives`, `gameOver`).

The model has two layers.

- A value-level specification:
  - `Geometry`: board constants and `collision`.
  - `Bodies`: a block's fields as a `Body` record, the velocity of a facing,
    and `updateDirection` as the function `Turn`.
  - `Maze`: the tile map and `loadMap` as a cell-by-cell fold, `Scan`.
  - `Rules`: the whole game state as a `World`, with `move` as `Tick`,
    `resetPosition` as `ResetPositions` and `movePacman` as `KeyUp`.
- The imperative program:
  - `Blocks.Block` is a class whose fields change in place.
  - `Arcade.Game` holds the globals as fields. Its methods follow the
    source's loops and branches.

Every method is proved to leave exactly the state that the matching
specification function computes: `State()` for a block, `Snapshot()` for
the game. The game's properties are then proved on the functions:

- the state invariant holds from the start;
- every tick and every key-up keeps it;
- a tick loses at most one life per ghost and scores 0 or 10 points;
- a turn either commits or rolls back;
- `loadMap` builds one wall per 'X' cell, one food per ' ' cell and one
  ghost per 'b', 'r', 'o' or 'p' cell, each list in row-major order; pacman
  is the block of the last 'P' cell, and an 'O' cell builds nothing;
- a food is removed only when pacman overlaps it.

The three `Set`s are sequences of distinct `Block` objects, in insertion
order. `Apart()` keeps them disjoint, and pacman is in none of them.
`Math.random` is an injected source `random: nat -> Direction`, indexed by
the number of draws made so far. `Block.updateDirection` reads the global
`walls`; in the model the walls are its parameter.

Behaviour of the code that the model keeps as written:

- A key-up calls `updateDirection` at once (script.js:256-264); nothing is
  queued.
- After game over, any key-up restarts the game, whatever its key
  (script.js:247-255).
- An edge wrap fires at `x <= 0` and undoes only the y part of the step
  (script.js:180-187, 216-225).
- The ghost wall loop has no `break` (script.js:210-227). A ghost that wraps
  at one edge can be wrapped back at the next wall of the same loop, drawing
  a second random direction. `Rules.GhostWrapsBack` exhibits this.

## Model

| member | source | states |
|---|---|---|
| Geometry.Collision | script.js:271-278 | `collision` as four strict comparisons of the two boxes; characterised by `CollisionSymmetric`, `EdgeContactIsNoCollision` and `CollisionIffSharedPixel` |
| Geometry.CollisionSymmetric | script.js:271-278 | the overlap test gives the same answer with its arguments swapped |
| Geometry.EdgeContactIsNoCollision | script.js:271-278 | boxes that only share an edge do not collide, since all four comparisons are strict |
| Geometry.CollisionIffSharedPixel | script.js:271-278 | for boxes of positive size, `collision` holds exactly when some pixel lies in both boxes |
| Bodies.Velocity | script.js:323-337 | the velocity of a facing is non-zero on exactly one axis, has magnitude tileSize / 4, and its sign gives the facing |
| Bodies.VelocityDeterminesDirection | script.js:323-337 | two facings have the same velocity only if they are the same facing |
| Bodies.Spawn | script.js:290-303 | a new block has the given box and image, sits at its start, faces right and does not move |
| Bodies.Turn | script.js:305-321 | `updateDirection` as a function of the block and the walls; characterised by `TurnFacts`, `TurnCommitsOrRollsBack` and `TurnSameWayIsAdvance`, and implemented by `Blocks.Block.UpdateDirection` |
| Bodies.TurnFacts | script.js:305-321 | `updateDirection` keeps image, size and start and leaves a velocity that matches the facing; when the probe step is free it commits to the new facing one step on, with no wall overlapping; otherwise position and facing stay |
| Bodies.TurnCommitsOrRollsBack | script.js:305-321 | a turn either commits (new facing, one step, no wall overlap) or keeps position and facing; rolling back a block whose velocity matched its facing leaves it unchanged |
| Bodies.TurnSameWayIsAdvance | script.js:305-321 | turning a moving block towards its own facing, when the step is free, is one plain step |
| Maze.TileMapWellFormed | script.js:19-41 | the tile map has 21 rows of 19 characters |
| Maze.AddTile | script.js:104-124 | the branch on one tile character; characterised by `AddTileAppends` and `AddTileAsBuilt` |
| Maze.Scan | script.js:96-126 | the row and column loops as a fold over the cells before a position; characterised by `ScanProvenance`, `ScanOrdered`, `ScanComplete`, `ScanFindsPacman` and `ScanSettled` |
| Maze.Build | script.js:91-127 | `loadMap`: the fold over the whole grid from empty collections; characterised by `LevelWalls`, `LevelFoods`, `LevelGhosts`, `BuildPacmanAt` and `ScanSettled` |
| Maze.AddTileAppends | script.js:104-124 | one cell appends its block to the collection of its kind (wall, ghost or food), or sets pacman for 'P', and changes nothing else |
| Maze.ScanProvenance | script.js:96-126 | every block collected so far comes from a cell of its kind before the loop position |
| Maze.ScanOrdered | script.js:96-126 | each collection is in row-major order of its blocks' positions |
| Maze.ScanPrecedes | script.js:96-126 | the blocks collected before a cell all lie earlier in row-major order than that cell's block |
| Maze.ScanComplete | script.js:96-126 | every cell of a kind before the loop position has its block in that collection |
| Maze.ScanFindsPacman | script.js:119-120 | pacman is assigned exactly when a 'P' cell lies before the loop position, and it is the block of the last such cell, since each 'P' replaces pacman |
| Maze.BuildPacmanAt | script.js:119-120 | when (r0, c0) is the grid's last 'P' cell, the built pacman is the block of that cell |
| Maze.MadePacman | script.js:119-120 | a 'P' cell makes a 32 x 32 pacman block at the cell's corner, with the right-facing image |
| Maze.AddTileAsBuilt | script.js:104-124 | one cell keeps every block at its start and not moving, with the image and size of its kind |
| Maze.ScanSettled | script.js:96-126 | every block `loadMap` builds is at its start, faces right and does not move, with the image and size of its kind |
| Maze.LevelWalls | script.js:91-127 | exactly one 32 x 32 wall per 'X' cell, at the cell's corner, in row-major order, and no other wall |
| Maze.LevelFoods | script.js:91-127 | exactly one 4 x 4 food per ' ' cell, 14 pixels into the cell, in row-major order, and no other food |
| Maze.LevelGhosts | script.js:91-127 | exactly one ghost per 'b', 'r', 'o', 'p' cell, with that cell's image, in row-major order, and no other ghost |
| Maze.TileMapPlayable | script.js:19-41 | the fixed tile map yields a pacman, at least one food, and blocks at their starts, not moving |
| Maze.TileMapPacman | script.js:19-41 | on the fixed tile map pacman spawns at pixel (288, 480), row 15, column 9, facing right |
| Maze.TileMapLastPacman | script.js:19-41 | row 15, column 9 is a 'P' cell and no 'P' cell follows it |
| Maze.PacmanRow | script.js:35 | row 15 holds a 'P' at column 9 and none after it |
| Maze.RowsBelowPacman | script.js:36-40 | rows 16 to 20 hold no 'P' |
| Rules.PacmanScan | script.js:175-189 | the pacman wall loop, stopping at its first `break`; characterised by `PacmanScanOutcomes` |
| Rules.PacmanStep | script.js:173-189 | one velocity step, then the wall loop; characterised by `PacmanStepOutcomes` |
| Rules.PacmanScanOutcomes | script.js:175-189 | the pacman wall loop either undoes the step at an overlapped wall, keeps the step when no wall overlaps, or wraps x at an edge and undoes the y step; only x and y change |
| Rules.PacmanStepOutcomes | script.js:173-189 | after the pacman phase, pacman is back where it was (a wall was hit), one velocity step on (no wall overlaps), or wrapped to the other edge at its old y |
| Rules.CorridorTurn | script.js:201-206 | a ghost moving left or right on the corridor row is turned up; characterised by `GhostMoveKeeps` |
| Rules.WallCheck | script.js:211-226 | one wall check of a ghost either leaves it alone without drawing, or draws exactly one random direction |
| Rules.WallCheckOutcomes | script.js:211-226 | at an overlapped wall the ghost is turned from one step back; at the left edge from x = boardWidth - width, at the right edge from x = 0, both with the y step undone; each of these draws once, and the turn either keeps that position and facing or takes one free step of the drawn direction; otherwise nothing changes |
| Rules.GhostScan | script.js:210-227 | the ghost wall loop over every wall, without a `break`; characterised by `GhostScanKeeps` and `GhostWrapsBack` |
| Rules.GhostMove | script.js:201-227 | corridor turn, one step, then the wall loop; characterised by `GhostMoveKeeps` |
| Rules.GhostScanKeeps | script.js:210-227 | the ghost wall loop keeps image, size and start and a velocity that matches the facing; without a draw the ghost is unchanged |
| Rules.GhostMoveKeeps | script.js:201-227 | a moving ghost keeps its frame and a matching velocity; if it drew nothing it took exactly one step after the corridor turn |
| Rules.GhostWrapsBack | script.js:210-227 | a ghost leaving by the left edge and turned right is wrapped back to the left at the next wall, two draws later, where pacman's loop wraps once |
| Rules.MoveGhostAt | script.js:201-227 | moving ghost i changes ghost i and the draw count only |
| Rules.Home | script.js:339-342 | `reset` on a block: back to its start; characterised by `ResetGhostsPlaces` and `ResetPositionsPlaces` |
| Rules.ResetGhosts | script.js:283-287 | the reset loop keeps the number of ghosts and draws once per ghost |
| Rules.ResetPositions | script.js:279-288 | `resetPosition` keeps walls, foods, score, lives, game-over flag and the number of ghosts |
| Rules.ResetGhostsPlaces | script.js:283-287 | after the reset loop every ghost has its frame, a velocity that matches its facing, and is at its start or one step from it |
| Rules.ResetPositionsPlaces | script.js:279-288 | after `resetPosition`, pacman is at its start with zero velocity and its facing kept, and every ghost is at its start or one step from it |
| Rules.Contact | script.js:192-199 | on contact one life is lost, the tick stops exactly when lives reach 0, and then the game is over; without contact nothing changes |
| Rules.ContactResets | script.js:192-199 | a contact that leaves a life goes on with one life fewer and runs `resetPosition`: pacman at its start and stopped, every ghost at its start or one step from it, one draw per ghost |
| Rules.ContactKeeps | script.js:192-199 | a contact keeps pacman's velocity consistent and every ghost's velocity matching its facing |
| Rules.MoveGhostAtKeeps | script.js:201-227 | moving one ghost keeps every ghost's velocity matching its facing |
| Rules.GhostPhase | script.js:191-228 | the ghost loop: contact test, then movement, stopping when the game ends; characterised by `GhostPhaseLives` and `LastLifeEndsTick` |
| Rules.GhostPhaseLives | script.js:191-228 | the ghost loop stops exactly when the game ends, and then with 0 lives; it loses at most one life per ghost; it leaves walls, foods and score as they were |
| Rules.LastLifeEndsTick | script.js:192-197 | with one life left, contact ends the tick at once with 0 lives, game over and nothing else changed |
| Rules.FirstHit | script.js:230-237 | the index found is the first food pacman overlaps, or the number of foods when none does |
| Rules.FirstHitUnique | script.js:230-237 | the first-overlap index is the only index with those three properties |
| Rules.EatFood | script.js:230-238 | the food loop and the deletion of the food eaten; characterised by `EatFoodFacts` |
| Rules.EatFoodFacts | script.js:230-238 | the score rises by 10 exactly when pacman overlaps a food; then exactly one such food is removed (a multiset difference of one) and nothing else changes |
| Rules.Rebuild | script.js:240-242 | a fresh `loadMap` of the tile map, keeping score, lives and draws; characterised by `NewRoundFacts` |
| Rules.NewRound | script.js:240-243 | `loadMap` then `resetPosition`; characterised by `NewRoundFacts` |
| Rules.NewRoundFacts | script.js:240-243 | a new round has every food and wall of the level again, pacman at its spawn and stopped, every ghost at its spawn or one step from it, and the same score, lives and flag |
| Rules.FinishKeepsInv | script.js:230-243 | food and round completion keep the invariant and raise the score by 0 or 10 |
| Rules.Tick | script.js:172-244 | `move`: pacman phase, ghost phase, food phase and a new round once the foods run out; characterised by `TickKeepsInv` |
| Rules.TickKeepsInv | script.js:172-244 | `move` keeps the invariant, never adds lives, adds 0 or 10 points, and a tick that ends the game leaves foods and score alone |
| Rules.UpdateStep | script.js:129-134 | one `move` unless the game is over; characterised by `UpdateStepKeepsInv` |
| Rules.UpdateStepKeepsInv | script.js:129-134 | `Update` keeps the invariant, never adds lives, adds 0 or 10 points, and changes nothing once the game is over |
| Rules.KeyDirection | script.js:256-264 | the direction of an arrow or WASD key code, none for any other; characterised by `KeyUpFacts` |
| Rules.FacingImage | script.js:266-269 | the pacman image of each facing; characterised by `KeyUpFacts` |
| Rules.Restart | script.js:247-255 | a new round with 3 lives, score 0 and the game on; characterised by `KeyUpFacts` and `Arcade.Game.RestartGame` |
| Rules.KeyUp | script.js:246-270 | `movePacman`: restart after game over, otherwise turn and show the facing; characterised by `KeyUpFacts` |
| Rules.KeyUpFacts | script.js:246-270 | while playing, a key-up changes pacman alone (a turn for an arrow or WASD key, the image of its facing) and keeps the invariant; after game over it restarts into the invariant |
| Rules.TurnGhosts | script.js:60-63 | the onload loop turning each ghost towards one draw, in order; characterised by `TurnGhostsSteady` and `Arcade.Game.TurnAllGhosts` |
| Rules.TurnGhostsSteady | script.js:60-63 | after the onload loop every ghost's velocity matches its facing |
| Rules.Opening | script.js:43-64 | the globals' initial values, `loadMap` and the onload loop; characterised by `OpeningInv` and `Arcade.Game.Start` |
| Rules.OpeningInv | script.js:43-64 | the state after loading and the onload loop satisfies the invariant |
| Blocks.Block.constructor | script.js:290-303 | a new block is at (x, y), which is also its start, faces right and does not move |
| Blocks.Block.UpdateDirection | script.js:305-321 | the block's new state is the turn of its old state towards the direction, against the walls |
| Blocks.Block.Face | script.js:306-310 | facing the direction and taking one step of its velocity |
| Blocks.Block.StepBack | script.js:314-317 | one step undone and the previous facing restored with its velocity |
| Blocks.Block.HitsWall | script.js:312-320 | the result is true exactly when some wall overlaps the block |
| Blocks.Block.UpdateVelocity | script.js:323-337 | the velocity becomes the one of the current facing |
| Blocks.Block.Reset | script.js:339-342 | the block is back at its start position |
| Blocks.DistinctAppend | script.js:105-106 | adding a new block to a set of distinct blocks keeps them distinct |
| Blocks.StatesDelete | script.js:238 | deleting the food at index k deletes its state at index k |
| Blocks.DeleteKeeps | script.js:238 | deleting a block keeps the others distinct and adds none |
| Arcade.Game.constructor | script.js:43-64 | the globals' initial values, then `loadMap`, the onload loop and the first `Update`, give the state the specification computes from the fixed tile map |
| Arcade.Game.Start | script.js:59-63 | `loadMap` and the onload loop give the opening state, with fresh blocks |
| Arcade.Game.TurnAllGhosts | script.js:60-63 | every ghost is turned in order, one draw each; walls, foods and pacman are unchanged |
| Arcade.Game.TurnGhost | script.js:284-286 | ghost i is sent home when asked, then turned towards the next draw; nothing else changes |
| Arcade.Game.HomeGhost | script.js:284 | ghost i alone goes back to its start |
| Arcade.Game.AimGhost | script.js:285-286 | ghost i alone is turned towards the next draw, which is counted |
| Arcade.Game.RandomDirection | script.js:285 | the direction is the next draw of the random source, which is counted |
| Arcade.Game.LoadMap | script.js:91-127 | the collections and pacman become exactly the level `loadMap` builds from the tile map, as fresh, pairwise distinct blocks |
| Arcade.Game.LoadRows | script.js:96-126 | the row loop fills the emptied collections with the whole level |
| Arcade.Game.LoadRow | script.js:97-125 | one row extends the level built so far by that row's cells |
| Arcade.Game.LoadTile | script.js:98-124 | one cell adds its block to the level built so far |
| Arcade.Game.AddWall | script.js:105-106 | a new wall is appended to the walls |
| Arcade.Game.AddGhost | script.js:107-118 | a new ghost with the given image is appended to the ghosts |
| Arcade.Game.PlacePacman | script.js:119-120 | pacman is replaced by a new block facing right at the cell |
| Arcade.Game.AddFood | script.js:121-123 | a new 4 x 4 food, 14 pixels into the cell, is appended to the foods |
| Arcade.Game.StepPacman | script.js:173-189 | the pacman phase leaves the state of `PacmanStep` (see `Rules.PacmanStepOutcomes`) |
| Arcade.Game.MoveGhost | script.js:201-227 | ghost i's movement leaves the state of `MoveGhostAt` |
| Arcade.Game.StepGhost | script.js:201-227 | corridor turn, one step and the wall loop, as `GhostMove` |
| Arcade.Game.ScanWalls | script.js:210-227 | the ghost wall loop, as `GhostScan` |
| Arcade.Game.MeetWall | script.js:211-226 | one wall check, as `WallCheck` |
| Arcade.Game.Rebound | script.js:212-225 | the ghost is put at the given position and turned towards the next draw |
| Arcade.Game.MoveGhosts | script.js:191-228 | the ghost loop leaves the state of `GhostPhase` and stops exactly when it does (see `Rules.GhostPhaseLives`) |
| Arcade.Game.Touch | script.js:192-199 | the contact test leaves the state of `Contact` (see `Rules.Contact`) |
| Arcade.Game.LoseLife | script.js:193 | lives fall by one and nothing else changes |
| Arcade.Game.EndGame | script.js:195 | the game is over and nothing else changes |
| Arcade.Game.EatFood | script.js:230-238 | the food phase leaves the state of `Rules.EatFood` (see `Rules.EatFoodFacts`) |
| Arcade.Game.FindFood | script.js:230-237 | the loop stops at the first food pacman overlaps (see `Rules.FirstHitUnique`) |
| Arcade.Game.AddScore | script.js:234 | the score rises by the points and nothing else changes |
| Arcade.Game.RemoveFood | script.js:238 | the food at the index is deleted and nothing else changes |
| Arcade.Game.ResetPosition | script.js:279-288 | `resetPosition` leaves the state of `ResetPositions` (see `Rules.ResetPositionsPlaces`) |
| Arcade.Game.HomePacman | script.js:280-282 | pacman is at its start with zero velocity |
| Arcade.Game.HomeGhosts | script.js:283-287 | the ghost loop of `resetPosition`, as `ResetGhosts`; walls, foods and pacman are unchanged |
| Arcade.Game.Move | script.js:172-244 | `move` leaves the state of `Tick` (see `Rules.TickKeepsInv`) |
| Arcade.Game.StartRound | script.js:240-243 | a new level with everyone at the start, as `NewRound` (see `Rules.NewRoundFacts`) |
| Arcade.Game.Update | script.js:129-134 | no step once the game is over, one `move` otherwise |
| Arcade.Game.MovePacman | script.js:246-270 | a key-up leaves the state of `KeyUp` (see `Rules.KeyUpFacts`) |
| Arcade.Game.RestartGame | script.js:247-255 | a new round with 3 lives, score 0 and the game on, then one `Update` |
| Arcade.Game.ResetCounters | script.js:250-252 | 3 lives, score 0, game not over |
| Arcade.Game.Steer | script.js:256-264 | an arrow or WASD key turns pacman towards its direction; any other key leaves pacman unchanged |
| Arcade.Game.ShowFacing | script.js:266-269 | pacman's image becomes the one of its facing; nothing else changes |

## Left out

- `draw`, `loadImages` and the canvas setup in `window.onload`: drawing and image loading have no effect on the game state. Images are the tokens of `Sprite`. `boardHeight` (script.js:6) only sizes the canvas, so it is not modelled; `boardWidth` is `BoardWidth`, used by the wrap-around.
- The `setTimeout` chain in `Update`: timing is outside the model. `Update` is one step, and the restart's `Update` call is one step too.
- Registering `movePacman` as the key-up listener: a key-up is modelled as a call of `MovePacman` with the event's `code`.
- `Math.random`: it is the injected source `random`, indexed by a draw counter. The uniform distribution is not modelled.
- JavaScript numbers: coordinates are unbounded integers. Every value the code computes is a small integer, which a double holds exactly.
- Set semantics: the collections are sequences of distinct objects. `foods.delete` removes by index, and `foods.delete(null)` when nothing was eaten is a no-op, as in the code.
- Aliasing across globals is excluded by `Apart()`; the code never shares a block between two collections.

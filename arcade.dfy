/** The game's global state and the functions that change it in place:
    `loadMap`, `move`, `resetPosition`, `Update` and the key-up handler
    `movePacman`. Each method is proved to leave the state that the matching
    function of `Rules` computes from the state before. */
module Arcade {
  import opened Wrappers
  import opened Geometry
  import opened Bodies
  import opened Maze
  import opened Rules
  import opened Blocks

  class Game {
    /** `tileMap`: the grid `loadMap` reads. */
    const tileMap: Grid
    var walls: seq<Block>
    var foods: seq<Block>
    var ghosts: seq<Block>
    var pacman: Block?
    var score: int
    var lives: int
    var gameOver: bool
    /** The random direction source, one direction per draw. */
    const random: Random
    /** How many random directions have been drawn. */
    var draws: nat

    /** The collections behave as sets of distinct blocks, no block is in two
        of them, and pacman exists and is in none. */
    ghost predicate Valid()
      reads this
    {
      pacman != null && Apart()
    }

    /** No block is listed twice, in one collection or in two, and pacman, if
        any, is in none. */
    ghost predicate Apart()
      reads this
    {
      Distinct(walls) && Distinct(foods) && Distinct(ghosts) &&
      (pacman != null ==> pacman !in walls && pacman !in foods && pacman !in ghosts) &&
      (forall j :: 0 <= j < |ghosts| ==> ghosts[j] !in walls && ghosts[j] !in foods) &&
      (forall j :: 0 <= j < |foods| ==> foods[j] !in walls)
    }

    /** The level loaded so far; pacman counts once `found`. */
    ghost function Loaded(found: bool): Level
      reads this, walls, foods, ghosts, pacman
    {
      Level(States(walls), States(foods), States(ghosts),
            if found && pacman != null then Some(pacman.State()) else None)
    }

    /** The whole game state as a value. */
    function Snapshot(): World
      requires pacman != null
      reads this, pacman, walls, foods, ghosts
    {
      World(tileMap, States(walls), States(foods), States(ghosts), pacman.State(),
            score, lives, gameOver, draws)
    }

    /** The globals' initialisation, then the onload sequence: `loadMap`, every
        ghost turned towards a random direction, and the first `Update`. */
    constructor (random: Random)
      ensures Valid() && tileMap == TileMap && Playable(tileMap) && this.random == random
      ensures Snapshot() == UpdateStep(Opening(tileMap, random), random)
    {
      score := 0;
      lives := 3;
      gameOver := false;
      this.random := random;
      draws := 0;
      tileMap := TileMap;
      walls := [];
      foods := [];
      ghosts := [];
      pacman := null;
      new;
      TileMapPlayable();
      Start();
      Update();
    }

    /** The onload sequence before the first `Update`: `loadMap`, then every
        ghost turned towards a random direction. */
    method Start()
      requires Playable(tileMap) && score == 0 && lives == 3 && !gameOver && draws == 0
      modifies this`walls, this`foods, this`ghosts, this`pacman, this`draws
      ensures Valid() && Snapshot() == Opening(tileMap, random)
      ensures fresh(pacman) && forall j :: 0 <= j < |ghosts| ==> fresh(ghosts[j])
    {
      LoadMap();
      ghost var lv := Build(tileMap);
      ghost var w := Snapshot();
      assert w == World(tileMap, lv.walls, lv.foods, lv.ghosts, lv.pacman.value, 0, 3, false, 0);
      TurnAllGhosts();
      ghost var (gs, n) := TurnGhosts(lv.ghosts, lv.walls, 0, 0, random);
      assert States(ghosts) == gs && draws == n;
      assert Snapshot() == w.(ghosts := gs, draws := n);
    }

    /** The onload loop: every ghost turned towards a random direction. */
    method TurnAllGhosts()
      requires Valid()
      modifies this`draws, ghosts
      ensures Valid()
      ensures States(walls) == old(States(walls)) && States(foods) == old(States(foods))
      ensures pacman.State() == old(pacman.State())
      ensures (States(ghosts), draws) == TurnGhosts(old(States(ghosts)), States(walls), 0, old(draws), random)
    {
      ghost var ws := States(walls);
      ghost var fs := States(foods);
      ghost var p := pacman.State();
      ghost var spec := TurnGhosts(States(ghosts), ws, 0, draws, random);
      var i := 0;
      while i < |ghosts|
        invariant 0 <= i <= |ghosts| && Valid()
        invariant States(walls) == ws && States(foods) == fs && pacman.State() == p
        invariant TurnGhosts(States(ghosts), ws, i, draws, random) == spec
      {
        TurnGhostsStep(States(ghosts), ws, i, draws, random);
        TurnGhost(i, false);
        i := i + 1;
      }
    }

    /** Ghost i turned towards the next random direction, after going back to
        its start when `home` holds; the other ghosts stay as they were. */
    method TurnGhost(i: nat, home: bool)
      requires Valid() && i < |ghosts|
      modifies this`draws, ghosts[i]
      ensures Valid()
      ensures var w := old(Snapshot()); var g := w.ghosts[i];
        Snapshot() == w.(ghosts := w.ghosts[i := Turn(if home then Home(g) else g, random(w.draws), w.walls)], draws := w.draws + 1)
    {
      ghost var w := Snapshot();
      if home {
        HomeGhost(i);
      }
      AimGhost(i);
    }

    /** `reset` on ghost i. */
    method HomeGhost(i: nat)
      requires Valid() && i < |ghosts|
      modifies ghosts[i]
      ensures Valid()
      ensures Snapshot() == old(Snapshot()).(ghosts := old(States(ghosts))[i := Home(old(ghosts[i].State()))])
    {
      var g := ghosts[i];
      assert g !in walls && g !in foods && g != pacman;
      ghost var before := States(ghosts);
      g.Reset();
      assert forall j :: 0 <= j < |ghosts| && j != i ==> ghosts[j] != g;
      assert States(ghosts) == before[i := g.State()];
    }

    /** A random direction drawn, then `updateDirection` on ghost i towards it,
        against the walls. */
    method AimGhost(i: nat)
      requires Valid() && i < |ghosts|
      modifies this`draws, ghosts[i]
      ensures Valid()
      ensures var w := old(Snapshot());
        Snapshot() == w.(ghosts := w.ghosts[i := Turn(w.ghosts[i], random(w.draws), w.walls)], draws := w.draws + 1)
    {
      ghost var w := Snapshot();
      var g := ghosts[i];
      assert g !in walls && g !in foods && g != pacman;
      var newDirection := RandomDirection();
      g.UpdateDirection(newDirection, walls);
      assert forall j :: 0 <= j < |ghosts| && j != i ==> ghosts[j] != g;
      assert States(ghosts) == w.ghosts[i := g.State()];
      assert Snapshot() == w.(ghosts := States(ghosts), draws := draws);
    }

    /** One draw of the random direction source. */
    method RandomDirection() returns (d: Direction)
      modifies this`draws
      ensures d == random(old(draws)) && draws == old(draws) + 1
    {
      d := random(draws);
      draws := draws + 1;
    }

    /** `loadMap`: the three collections emptied, then refilled from the tile
        map row by row, left to right; pacman is replaced at its 'P' cell. */
    method LoadMap()
      requires Playable(tileMap)
      modifies this`walls, this`foods, this`ghosts, this`pacman
      ensures Valid()
      ensures States(walls) == Build(tileMap).walls && States(foods) == Build(tileMap).foods
      ensures States(ghosts) == Build(tileMap).ghosts
      ensures Build(tileMap).pacman.Some? && pacman.State() == Build(tileMap).pacman.value
      ensures fresh(pacman) && forall j :: 0 <= j < |ghosts| ==> fresh(ghosts[j])
    {
      walls := [];
      foods := [];
      ghosts := [];
      ghost var found := LoadRows();
      assert found;
    }

    /** The rows of `loadMap`, top to bottom, into empty collections. */
    method LoadRows() returns (ghost found: bool)
      requires walls == foods == ghosts == []
      modifies this`walls, this`foods, this`ghosts, this`pacman
      ensures Apart() && (found ==> pacman != null && fresh(pacman))
      ensures forall j :: 0 <= j < |ghosts| ==> fresh(ghosts[j])
      ensures Loaded(found) == Build(tileMap)
    {
      found := false;
      var r := 0;
      while r < RowCount
        invariant 0 <= r <= RowCount
        invariant Apart() && (found ==> pacman != null && fresh(pacman))
        invariant forall j :: 0 <= j < |ghosts| ==> fresh(ghosts[j])
        invariant Loaded(found) == Scan(tileMap, r, 0)
      {
        found := LoadRow(r, found);
        r := r + 1;
      }
    }

    /** Row r of `loadMap`, cell by cell from the left. */
    method LoadRow(r: nat, ghost found: bool) returns (ghost found': bool)
      requires r < RowCount && Apart() && (found ==> pacman != null)
      requires Loaded(found) == Scan(tileMap, r, 0)
      modifies this`walls, this`foods, this`ghosts, this`pacman
      ensures Apart() && (found' ==> pacman != null)
      ensures Loaded(found') == Scan(tileMap, r, ColumnCount)
      ensures (found' && !found) || pacman != old(pacman) ==> fresh(pacman)
      ensures found ==> found'
      ensures forall j :: 0 <= j < |ghosts| ==> ghosts[j] in old(ghosts) || fresh(ghosts[j])
    {
      found' := found;
      var c := 0;
      while c < ColumnCount
        invariant 0 <= c <= ColumnCount
        invariant Apart() && (found' ==> pacman != null)
        invariant (found' && !found) || pacman != old(pacman) ==> fresh(pacman)
        invariant found ==> found'
        invariant forall j :: 0 <= j < |ghosts| ==> ghosts[j] in old(ghosts) || fresh(ghosts[j])
        invariant Loaded(found') == Scan(tileMap, r, c)
      {
        var row := tileMap[r];
        var tileMapChar := row[c];
        var x := c * TileSize;
        var y := r * TileSize;
        found' := LoadTile(tileMapChar, x, y, found');
        assert Scan(tileMap, r, c + 1) == AddTile(Scan(tileMap, r, c), tileMapChar, x, y);
        c := c + 1;
      }
    }

    /** One cell of `loadMap`: a new wall, ghost or food appended to its
        collection, or a new pacman. */
    method LoadTile(tileMapChar: char, x: int, y: int, ghost found: bool) returns (ghost found': bool)
      requires Apart() && (found ==> pacman != null)
      modifies this`walls, this`foods, this`ghosts, this`pacman
      ensures Apart() && (found' ==> pacman != null)
      ensures found' == (found || tileMapChar == 'P')
      ensures Loaded(found') == AddTile(old(Loaded(found)), tileMapChar, x, y)
      ensures if tileMapChar == 'P' then fresh(pacman) else pacman == old(pacman)
      ensures forall j :: 0 <= j < |ghosts| ==> ghosts[j] in old(ghosts) || fresh(ghosts[j])
    {
      found' := found || tileMapChar == 'P';
      ghost var lv := Loaded(found);
      if tileMapChar == 'X' {
        AddWall(x, y);
        assert Loaded(found') == lv.(walls := lv.walls + [Spawn(WallImage, x, y, TileSize, TileSize)]);
      } else if tileMapChar == 'b' {
        AddGhost(BlueGhostImage, x, y);
        assert Loaded(found') == lv.(ghosts := lv.ghosts + [Spawn(BlueGhostImage, x, y, TileSize, TileSize)]);
      } else if tileMapChar == 'r' {
        AddGhost(RedGhostImage, x, y);
        assert Loaded(found') == lv.(ghosts := lv.ghosts + [Spawn(RedGhostImage, x, y, TileSize, TileSize)]);
      } else if tileMapChar == 'o' {
        AddGhost(OrangeGhostImage, x, y);
        assert Loaded(found') == lv.(ghosts := lv.ghosts + [Spawn(OrangeGhostImage, x, y, TileSize, TileSize)]);
      } else if tileMapChar == 'p' {
        AddGhost(PinkGhostImage, x, y);
        assert Loaded(found') == lv.(ghosts := lv.ghosts + [Spawn(PinkGhostImage, x, y, TileSize, TileSize)]);
      } else if tileMapChar == 'P' {
        PlacePacman(x, y);
        assert Loaded(found') == lv.(pacman := Some(Spawn(PacmanRightImage, x, y, TileSize, TileSize)));
      } else if tileMapChar == ' ' {
        AddFood(x, y);
        assert Loaded(found') == lv.(foods := lv.foods + [Spawn(NoImage, x + FoodOffset, y + FoodOffset, FoodSize, FoodSize)]);
      }
    }

    /** A new 32 x 32 wall block at (x, y), added to the walls. */
    method AddWall(x: int, y: int)
      requires Apart()
      modifies this`walls
      ensures Apart()
      ensures States(walls) == old(States(walls)) + [Spawn(WallImage, x, y, TileSize, TileSize)]
    {
      var wall := new Block(WallImage, x, y, TileSize, TileSize);
      StatesAppend(walls, wall);
      DistinctAppend(walls, wall);
      walls := walls + [wall];
    }

    /** A new 32 x 32 ghost block with the given image at (x, y), added to the ghosts. */
    method AddGhost(image: Sprite, x: int, y: int)
      requires Apart()
      modifies this`ghosts
      ensures Apart()
      ensures States(ghosts) == old(States(ghosts)) + [Spawn(image, x, y, TileSize, TileSize)]
      ensures forall j :: 0 <= j < |ghosts| ==> ghosts[j] in old(ghosts) || fresh(ghosts[j])
    {
      var g := new Block(image, x, y, TileSize, TileSize);
      StatesAppend(ghosts, g);
      DistinctAppend(ghosts, g);
      ghosts := ghosts + [g];
    }

    /** A new 32 x 32 pacman block facing right at (x, y) replaces pacman. */
    method PlacePacman(x: int, y: int)
      requires Apart()
      modifies this`pacman
      ensures Apart() && fresh(pacman)
      ensures pacman.State() == Spawn(PacmanRightImage, x, y, TileSize, TileSize)
    {
      pacman := new Block(PacmanRightImage, x, y, TileSize, TileSize);
    }

    /** A new 4 x 4 food block, without image, centred in the tile at (x, y). */
    method AddFood(x: int, y: int)
      requires Apart()
      modifies this`foods
      ensures Apart()
      ensures States(foods) == old(States(foods)) + [Spawn(NoImage, x + FoodOffset, y + FoodOffset, FoodSize, FoodSize)]
    {
      var food := new Block(NoImage, x + FoodOffset, y + FoodOffset, FoodSize, FoodSize);
      StatesAppend(foods, food);
      DistinctAppend(foods, food);
      foods := foods + [food];
    }

    /** The pacman phase of `move`: one step, then the wall loop, which undoes
        the step at the first wall hit or wraps at an edge. */
    method StepPacman()
      requires Valid()
      modifies pacman
      ensures Snapshot() == old(Snapshot()).(pacman := PacmanStep(old(pacman.State()), States(walls)))
    {
      ghost var ws := States(walls);
      ghost var spec := PacmanStep(pacman.State(), ws);
      pacman.x := pacman.x + pacman.velocityX;
      pacman.y := pacman.y + pacman.velocityY;
      var i := 0;
      while i < |walls|
        invariant 0 <= i <= |walls|
        invariant States(walls) == ws
        invariant PacmanScan(pacman.State(), ws, i) == spec
      {
        var wall := walls[i];
        assert wall.Box() == ws[i].Box();
        if Collision(pacman.Box(), wall.Box()) {
          pacman.x := pacman.x - pacman.velocityX;
          pacman.y := pacman.y - pacman.velocityY;
          break;
        } else if pacman.x <= 0 {
          pacman.x := BoardWidth - pacman.width;
          pacman.y := pacman.y - pacman.velocityY;
          break;
        } else if pacman.x + pacman.width >= BoardWidth {
          pacman.x := 0;
          pacman.y := pacman.y - pacman.velocityY;
          break;
        }
        i := i + 1;
      }
      assert pacman.State() == spec;
      assert States(foods) == old(States(foods));
      assert States(ghosts) == old(States(ghosts));
      assert old(Snapshot()) == World(tileMap, ws, old(States(foods)), old(States(ghosts)), old(pacman.State()), score, lives, gameOver, draws);
      assert Snapshot() == World(tileMap, ws, old(States(foods)), old(States(ghosts)), spec, score, lives, gameOver, draws);
    }

    /** The movement of ghost i in `move`: the corridor turn, one step, and the
        wall loop that re-turns it at random after every undone or wrapped step. */
    method MoveGhost(i: nat)
      requires Valid() && i < |ghosts|
      modifies this`draws, ghosts[i]
      ensures Snapshot() == MoveGhostAt(old(Snapshot()), i, random)
    {
      var g := ghosts[i];
      assert g in ghosts;
      ghost var before := States(ghosts);
      StepGhost(g);
      assert forall j :: 0 <= j < |ghosts| && j != i ==> ghosts[j] != g;
      assert States(ghosts) == before[i := g.State()];
    }

    /** The body of the ghost loop of `move` after the contact test, for one
        ghost: corridor turn, one step, and the wall loop. */
    method StepGhost(g: Block)
      requires g !in walls
      modifies this`draws, g
      ensures (g.State(), draws) == GhostMove(old(g.State()), States(walls), old(draws), random)
    {
      ghost var g0 := g.State();
      ghost var ws := States(walls);
      if g.y == CorridorY && g.direction != U && g.direction != D {
        g.UpdateDirection(U, walls);
      }
      ghost var c := CorridorTurn(g0, ws);
      assert g.State() == c;
      g.x := g.x + g.velocityX;
      g.y := g.y + g.velocityY;
      assert g.State() == Advance(c);
      ScanWalls(g);
      assert States(walls) == ws;
    }

    /** The wall loop of a moving ghost. */
    method ScanWalls(g: Block)
      requires g !in walls
      modifies this`draws, g
      ensures (g.State(), draws) == GhostScan(old(g.State()), States(walls), 0, old(draws), random)
    {
      ghost var ws := States(walls);
      var k := 0;
      while k < |walls|
        invariant 0 <= k <= |walls|
        invariant States(walls) == ws
        invariant GhostScan(g.State(), ws, k, draws, random) == GhostScan(old(g.State()), ws, 0, old(draws), random)
      {
        GhostScanStep(g.State(), ws, k, draws, random);
        MeetWall(g, k);
        k := k + 1;
      }
    }

    /** One iteration of a ghost's wall loop, at wall k. */
    method MeetWall(g: Block, k: nat)
      requires g !in walls && k < |walls|
      modifies g, this`draws
      ensures (g.State(), draws) == WallCheck(old(g.State()), States(walls), k, old(draws), random)
    {
      var wall := walls[k];
      assert wall.Box() == States(walls)[k].Box();
      if Collision(g.Box(), wall.Box()) {
        Rebound(g, g.x - g.velocityX, g.y - g.velocityY);
      } else if g.x <= 0 {
        Rebound(g, BoardWidth - g.width, g.y - g.velocityY);
      } else if g.x + g.width >= BoardWidth {
        Rebound(g, 0, g.y - g.velocityY);
      }
    }

    /** The body shared by the three branches of a ghost's wall check: the
        ghost is put at (x, y), then turned towards the next random direction. */
    method Rebound(g: Block, x: int, y: int)
      requires g !in walls
      modifies g, this`draws
      ensures (g.State(), draws) ==
        (Turn(old(g.State()).(x := x, y := y), random(old(draws)), States(walls)), old(draws) + 1)
    {
      g.x := x;
      g.y := y;
      var newDirection := RandomDirection();
      g.UpdateDirection(newDirection, walls);
    }

    /** The ghost loop of `move`: contact with pacman costs a life and either
        ends the tick (`stop`) or resets everyone; then the ghost moves. */
    method MoveGhosts() returns (stop: bool)
      requires Valid()
      modifies this`lives, this`gameOver, this`draws, pacman, ghosts
      ensures Valid()
      ensures (Snapshot(), stop) == GhostPhase(old(Snapshot()), 0, random)
    {
      var i := 0;
      while i < |ghosts|
        invariant 0 <= i <= |ghosts| && Valid()
        invariant GhostPhase(Snapshot(), i, random) == GhostPhase(old(Snapshot()), 0, random)
      {
        ghost var w := Snapshot();
        stop := Touch(i);
        if stop {
          return;
        }
        ghost var w1 := Snapshot();
        MoveGhost(i);
        assert GhostPhase(w, i, random) == GhostPhase(MoveGhostAt(w1, i, random), i + 1, random);
        i := i + 1;
      }
      return false;
    }

    /** The contact test of the ghost loop for ghost i: a life lost, then the
        game over (`stop`) or everyone back to the start. */
    method Touch(i: nat) returns (stop: bool)
      requires Valid() && i < |ghosts|
      modifies this`lives, this`gameOver, this`draws, pacman, ghosts
      ensures (Snapshot(), stop) == Contact(old(Snapshot()), i, random)
    {
      var g := ghosts[i];
      assert g.Box() == States(ghosts)[i].Box();
      stop := false;
      if Collision(g.Box(), pacman.Box()) {
        LoseLife();
        if lives == 0 {
          EndGame();
          return true;
        }
        ResetPosition();
      }
    }

    /** One life lost. */
    method LoseLife()
      requires Valid()
      modifies this`lives
      ensures Valid() && Snapshot() == old(Snapshot()).(lives := old(lives) - 1)
    {
      lives := lives - 1;
    }

    /** The game ends. */
    method EndGame()
      requires Valid()
      modifies this`gameOver
      ensures Valid() && Snapshot() == old(Snapshot()).(gameOver := true)
    {
      gameOver := true;
    }

    /** The food phase of `move`: the first food pacman overlaps is removed
        and scores 10. */
    method EatFood()
      requires Valid()
      modifies this`foods, this`score
      ensures Valid()
      ensures Snapshot() == Rules.EatFood(old(Snapshot()))
    {
      ghost var w := Snapshot();
      var at := FindFood();
      assert at == FirstHit(w.pacman.Box(), w.foods);
      if at < |foods| {
        AddScore(10);
        RemoveFood(at);
        assert Snapshot() == w.(foods := w.foods[..at] + w.foods[at + 1..], score := w.score + 10);
      }
    }

    /** The food loop of `move`: the index of the first food pacman overlaps,
        or |foods| when there is none. */
    method FindFood() returns (at: nat)
      requires pacman != null
      ensures at == FirstHit(pacman.Box(), States(foods))
    {
      at := 0;
      while at < |foods|
        invariant 0 <= at <= |foods|
        invariant forall j :: 0 <= j < at ==> !Collision(pacman.Box(), States(foods)[j].Box())
      {
        var food := foods[at];
        if Collision(pacman.Box(), food.Box()) {
          break;
        }
        at := at + 1;
      }
      FirstHitUnique(pacman.Box(), States(foods), at);
    }

    /** Points added to the score. */
    method AddScore(points: int)
      requires Valid()
      modifies this`score
      ensures Valid()
      ensures Snapshot() == old(Snapshot()).(score := old(score) + points)
    {
      score := score + points;
    }

    /** The food at index `at` taken out of the foods. */
    method RemoveFood(at: nat)
      requires Valid() && at < |foods|
      modifies this`foods
      ensures Valid()
      ensures Snapshot() == old(Snapshot()).(foods := old(States(foods))[..at] + old(States(foods))[at + 1..])
    {
      StatesDelete(foods, at);
      DeleteKeeps(foods, at);
      foods := foods[..at] + foods[at + 1..];
    }

    /** `resetPosition`: pacman back to its start and stopped, then each ghost
        back to its start and turned towards a random direction. */
    method ResetPosition()
      requires Valid()
      modifies this`draws, pacman, ghosts
      ensures Snapshot() == ResetPositions(old(Snapshot()), random)
    {
      ghost var w := Snapshot();
      HomePacman();
      ghost var p := pacman.State();
      assert Snapshot() == w.(pacman := p);
      HomeGhosts();
      assert Snapshot() == w.(pacman := p, ghosts := States(ghosts), draws := draws);
    }

    /** Pacman back to its start, stopped. */
    method HomePacman()
      requires pacman != null
      modifies pacman
      ensures pacman.State() == old(pacman.State()).(x := pacman.startX, y := pacman.startY, velocityX := 0, velocityY := 0)
    {
      pacman.Reset();
      pacman.velocityX := 0;
      pacman.velocityY := 0;
    }

    /** The ghost loop of `resetPosition`: each ghost back to its start, then
        turned towards a random direction. */
    method HomeGhosts()
      requires Valid()
      modifies this`draws, ghosts
      ensures Valid()
      ensures States(walls) == old(States(walls)) && States(foods) == old(States(foods))
      ensures pacman.State() == old(pacman.State())
      ensures (States(ghosts), draws) == ResetGhosts(old(States(ghosts)), States(walls), 0, old(draws), random)
    {
      ghost var ws := States(walls);
      ghost var fs := States(foods);
      ghost var p := pacman.State();
      ghost var spec := ResetGhosts(States(ghosts), ws, 0, draws, random);
      var i := 0;
      while i < |ghosts|
        invariant 0 <= i <= |ghosts| && Valid()
        invariant States(walls) == ws && States(foods) == fs && pacman.State() == p
        invariant ResetGhosts(States(ghosts), ws, i, draws, random) == spec
      {
        ghost var v := Snapshot();
        ResetGhostsStep(v.ghosts, ws, i, v.draws, random);
        TurnGhost(i, true);
        assert Snapshot().ghosts == v.ghosts[i := Turn(Home(v.ghosts[i]), random(v.draws), ws)];
        i := i + 1;
      }
    }

    /** `move`: the pacman phase, the ghost loop (which may end the tick), the
        food phase, and a new round once the last food is gone. */
    method Move()
      requires Valid() && Playable(tileMap)
      modifies this, pacman, ghosts
      ensures Valid()
      ensures Snapshot() == Tick(old(Snapshot()), random)
    {
      StepPacman();
      var stop := MoveGhosts();
      if stop {
        return;
      }
      EatFood();
      if |foods| == 0 {
        StartRound();
      }
    }

    /** A fresh level is loaded and everyone goes back to the start. */
    method StartRound()
      requires pacman != null && Playable(tileMap)
      modifies this`walls, this`foods, this`ghosts, this`pacman, this`draws
      ensures Valid()
      ensures Snapshot() == NewRound(old(Snapshot()), random)
      ensures fresh(pacman) && forall j :: 0 <= j < |ghosts| ==> fresh(ghosts[j])
    {
      ghost var w := old(Snapshot());
      LoadMap();
      assert Snapshot() == Rebuild(w);
      ResetPosition();
    }

    /** `Update`: one `move` unless the game is over. */
    method Update()
      requires Valid() && Playable(tileMap)
      modifies this, pacman, ghosts
      ensures Valid()
      ensures Snapshot() == UpdateStep(old(Snapshot()), random)
    {
      if gameOver {
        return;
      }
      Move();
    }

    /** `movePacman` on the key-up event with this code. */
    method MovePacman(code: string)
      requires Valid() && Playable(tileMap)
      modifies this, pacman, ghosts
      ensures Valid()
      ensures Snapshot() == KeyUp(old(Snapshot()), code, random)
    {
      if gameOver {
        RestartGame();
        return;
      }
      ghost var w := Snapshot();
      Steer(code);
      ShowFacing();
      assert Snapshot() == w.(pacman := pacman.State());
    }

    /** The restart branch of `movePacman`: a new round with 3 lives and score
        0, then one `update`. */
    method RestartGame()
      requires Valid() && Playable(tileMap)
      modifies this, pacman, ghosts
      ensures Valid()
      ensures Snapshot() == UpdateStep(Restart(old(Snapshot()), random), random)
    {
      ghost var w := Snapshot();
      StartRound();
      ghost var w1 := Snapshot();
      assert w1 == NewRound(w, random);
      ResetCounters();
      assert Snapshot() == w1.(lives := 3, score := 0, gameOver := false);
      Update();
    }

    /** Three lives, score 0, game on. */
    method ResetCounters()
      requires Valid()
      modifies this`lives, this`score, this`gameOver
      ensures Valid()
      ensures lives == 3 && score == 0 && !gameOver
    {
      lives := 3;
      score := 0;
      gameOver := false;
    }

    /** The key part of `movePacman`: turn pacman towards the key's direction,
        if the key has one. */
    method Steer(code: string)
      requires Valid()
      modifies pacman
      ensures pacman.State() ==
        match KeyDirection(code)
        case Some(d) => Turn(old(pacman.State()), d, States(walls))
        case None => old(pacman.State())
    {
      if code == "ArrowUp" || code == "KeyW" {
        pacman.UpdateDirection(U, walls);
      } else if code == "ArrowDown" || code == "KeyS" {
        pacman.UpdateDirection(D, walls);
      } else if code == "ArrowLeft" || code == "KeyA" {
        pacman.UpdateDirection(L, walls);
      } else if code == "ArrowRight" || code == "KeyD" {
        pacman.UpdateDirection(R, walls);
      }
    }

    /** The image part of `movePacman`: pacman shows its facing. */
    method ShowFacing()
      requires pacman != null
      modifies pacman`image
      ensures pacman.State() == old(pacman.State()).(image := FacingImage(pacman.direction))
    {
      if pacman.direction == U {
        pacman.image := PacmanUpImage;
      } else if pacman.direction == D {
        pacman.image := PacmanDownImage;
      } else if pacman.direction == L {
        pacman.image := PacmanLeftImage;
      } else if pacman.direction == R {
        pacman.image := PacmanRightImage;
      }
    }
  }
}

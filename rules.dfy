/** The game's rules on values: one tick of `move`, `resetPosition`, the
    rebuild after the last food, and the key-up handler `movePacman`, each as a
    function from the state before to the state after. */
module Rules {
  import opened Wrappers
  import opened Geometry
  import opened Bodies
  import opened Maze

  /** Everything the game logic reads or writes: the tile map, the three
      collections in insertion order, pacman, the counters, and how many
      random directions have been drawn so far. */
  datatype World = World(
    tileMap: Grid,
    walls: seq<Body>, foods: seq<Body>, ghosts: seq<Body>, pacman: Body,
    score: int, lives: int, gameOver: bool, draws: nat)

  /** The random direction source: the direction of draw n, one of the four. */
  type Random = nat -> Direction

  /** The row whose ghosts are forced to turn up: y == tileSize * 9. */
  const CorridorY: int := TileSize * 9

  // ---------------------------------------------------------------------------
  // Phase 1 of `move`: pacman steps, then meets the walls

  /** The wall loop of the pacman phase, from wall i on: the first wall hit
      undoes the step, otherwise an edge wraps x and undoes the y step; each of
      the three ends the loop. */
  function PacmanScan(p: Body, walls: seq<Body>, i: nat): Body
    decreases |walls| - i
  {
    if i >= |walls| then p
    else if Collision(p.Box(), walls[i].Box()) then Retreat(p)
    else if p.x <= 0 then p.(x := BoardWidth - p.width, y := p.y - p.velocityY)
    else if p.x + p.width >= BoardWidth then p.(x := 0, y := p.y - p.velocityY)
    else PacmanScan(p, walls, i + 1)
  }

  function PacmanStep(p: Body, walls: seq<Body>): Body {
    PacmanScan(Advance(p), walls, 0)
  }

  lemma {:induction false} PacmanScanOutcomes(a: Body, walls: seq<Body>, i: nat)
    requires i <= |walls|
    requires forall j :: 0 <= j < i ==> !Collision(a.Box(), walls[j].Box())
    requires i > 0 ==> 0 < a.x && a.x + a.width < BoardWidth
    ensures var q := PacmanScan(a, walls, i);
      q == a.(x := q.x, y := q.y) &&
      ((q == Retreat(a) && Blocked(a.Box(), walls)) ||
       (q == a && !Blocked(a.Box(), walls)) ||
       (q.x == BoardWidth - a.width && q.y == a.y - a.velocityY && a.x <= 0) ||
       (q.x == 0 && q.y == a.y - a.velocityY && a.x + a.width >= BoardWidth))
    ensures !Blocked(a.Box(), walls) && 0 < a.x && a.x + a.width < BoardWidth ==>
      PacmanScan(a, walls, i) == a
    decreases |walls| - i
  {
    if i < |walls| && !Collision(a.Box(), walls[i].Box()) && 0 < a.x && a.x + a.width < BoardWidth {
      PacmanScanOutcomes(a, walls, i + 1);
    }
  }

  /** After the pacman phase, pacman is back where it was (a wall was hit),
      one velocity step away (no wall overlaps it there), or wrapped to the
      right or left edge with its y step undone; nothing but x and y changes. */
  lemma PacmanStepOutcomes(p: Body, walls: seq<Body>)
    ensures var q := PacmanStep(p, walls); var a := Advance(p);
      q == p.(x := q.x, y := q.y) &&
      ((q == p && Blocked(a.Box(), walls)) ||
       (q == a && !Blocked(a.Box(), walls)) ||
       (q.x == BoardWidth - p.width && q.y == p.y && a.x <= 0) ||
       (q.x == 0 && q.y == p.y && a.x + p.width >= BoardWidth))
    ensures var a := Advance(p);
      !Blocked(a.Box(), walls) && 0 < a.x && a.x + p.width < BoardWidth ==>
      PacmanStep(p, walls) == a
  {
    PacmanScanOutcomes(Advance(p), walls, 0);
    assert Retreat(Advance(p)) == p;
  }

  // ---------------------------------------------------------------------------
  // Phase 2 of `move`: each ghost

  /** A ghost on the corridor row that faces sideways tries to turn up. */
  function CorridorTurn(g: Body, walls: seq<Body>): Body {
    if g.y == CorridorY && g.direction != U && g.direction != D then Turn(g, U, walls) else g
  }

  /** One iteration of the ghost's wall loop, at wall i with n draws made so
      far: an overlapped wall undoes the step, an edge wraps x and undoes the
      y step, and either is followed by a turn towards random draw n. */
  function WallCheck(g: Body, walls: seq<Body>, i: nat, n: nat, random: Random): (res: (Body, nat))
    requires i < |walls|
    ensures res.1 == n || res.1 == n + 1
    ensures res.1 == n ==> res.0 == g
  {
    if Collision(g.Box(), walls[i].Box()) then
      (Turn(Retreat(g), random(n), walls), n + 1)
    else if g.x <= 0 then
      (Turn(g.(x := BoardWidth - g.width, y := g.y - g.velocityY), random(n), walls), n + 1)
    else if g.x + g.width >= BoardWidth then
      (Turn(g.(x := 0, y := g.y - g.velocityY), random(n), walls), n + 1)
    else
      (g, n)
  }

  /** `h` is the result of turning ghost `g`, first put at (x, y), towards
      `d`: it kept that position and its facing, or it faces `d` one free
      step further on; either way with the frame of `g` and a velocity that
      matches its facing. */
  predicate TurnedAt(h: Body, g: Body, x: int, y: int, d: Direction, walls: seq<Body>) {
    SameFrame(h, g) && Steady(h) &&
    ((h.x == x && h.y == y && h.direction == g.direction) ||
     (h.direction == d && h.x == x + Velocity(d).0 && h.y == y + Velocity(d).1 &&
      !Blocked(h.Box(), walls)))
  }

  /** Where one wall check leaves the ghost: at an overlapped wall it is
      turned from the position one step back, at the left edge from the
      right end of the row and at the right edge from x = 0, in both wrap
      cases with the y step undone; each of these draws once. Otherwise the
      ghost is untouched and nothing is drawn. */
  lemma WallCheckOutcomes(g: Body, walls: seq<Body>, i: nat, n: nat, random: Random)
    requires i < |walls|
    ensures var (h, m) := WallCheck(g, walls, i, n, random);
      if Collision(g.Box(), walls[i].Box()) then
        m == n + 1 && TurnedAt(h, g, g.x - g.velocityX, g.y - g.velocityY, random(n), walls)
      else if g.x <= 0 then
        m == n + 1 && TurnedAt(h, g, BoardWidth - g.width, g.y - g.velocityY, random(n), walls)
      else if g.x + g.width >= BoardWidth then
        m == n + 1 && TurnedAt(h, g, 0, g.y - g.velocityY, random(n), walls)
      else
        m == n && h == g
  {
    var b := if Collision(g.Box(), walls[i].Box()) then Retreat(g)
      else if g.x <= 0 then g.(x := BoardWidth - g.width, y := g.y - g.velocityY)
      else g.(x := 0, y := g.y - g.velocityY);
    TurnFacts(b, random(n), walls);
    TurnCommitsOrRollsBack(b, random(n), walls);
  }

  /** The ghost's wall loop from wall i on. It has no `break`: every wall the
      ghost overlaps, and every wall met while the ghost is at an edge,
      re-turns the ghost at random. */
  function GhostScan(g: Body, walls: seq<Body>, i: nat, n: nat, random: Random): (res: (Body, nat))
    ensures res.1 >= n
    decreases |walls| - i
  {
    if i >= |walls| then (g, n)
    else
      var (g1, n1) := WallCheck(g, walls, i, n, random);
      GhostScan(g1, walls, i + 1, n1, random)
  }

  /** One iteration of the ghost's wall loop. */
  lemma GhostScanStep(g: Body, walls: seq<Body>, i: nat, n: nat, random: Random)
    requires i < |walls|
    ensures GhostScan(g, walls, i, n, random) ==
            GhostScan(WallCheck(g, walls, i, n, random).0, walls, i + 1, WallCheck(g, walls, i, n, random).1, random)
  {
  }

  /** The movement of one ghost in a tick: corridor turn, one step, wall loop. */
  function GhostMove(g: Body, walls: seq<Body>, n: nat, random: Random): (Body, nat) {
    GhostScan(Advance(CorridorTurn(g, walls)), walls, 0, n, random)
  }

  lemma {:induction false} GhostScanKeeps(g: Body, walls: seq<Body>, i: nat, n: nat, random: Random)
    requires Steady(g)
    ensures var (h, m) := GhostScan(g, walls, i, n, random);
      Steady(h) && SameFrame(h, g) && n <= m
    ensures var (h, m) := GhostScan(g, walls, i, n, random);
      m == n ==> h == g
    decreases |walls| - i
  {
    if i < |walls| {
      var (g1, n1) := WallCheck(g, walls, i, n, random);
      assert Steady(g1) && SameFrame(g1, g);
      GhostScanKeeps(g1, walls, i + 1, n1, random);
    }
  }

  /** A moving ghost keeps its image, size and start; its velocity stays the
      one its facing implies; if it drew no random direction it took exactly
      one step of its (possibly corridor-turned) velocity. */
  lemma GhostMoveKeeps(g: Body, walls: seq<Body>, n: nat, random: Random)
    requires Steady(g)
    ensures var (h, m) := GhostMove(g, walls, n, random);
      Steady(h) && SameFrame(h, g) && n <= m &&
      (m == n ==> h == Advance(CorridorTurn(g, walls)))
  {
    var c := CorridorTurn(g, walls);
    assert Steady(c) && SameFrame(c, g);
    GhostScanKeeps(Advance(c), walls, 0, n, random);
  }

  /** Ghost i of the world moves; the draws it makes are counted. */
  function MoveGhostAt(w: World, i: nat, random: Random): (r: World)
    requires i < |w.ghosts|
    ensures |r.ghosts| == |w.ghosts| && r.draws >= w.draws
    ensures r == w.(ghosts := r.ghosts, draws := r.draws)
    ensures forall j :: 0 <= j < |w.ghosts| && j != i ==> r.ghosts[j] == w.ghosts[j]
  {
    var (g, n) := GhostMove(w.ghosts[i], w.walls, w.draws, random);
    w.(ghosts := w.ghosts[i := g], draws := n)
  }

  /** A random source whose every draw is R. */
  function AlwaysRight(n: nat): Direction { R }

  /** The wall loop has no `break`, unlike pacman's: a ghost that leaves by
      the left edge and is turned right is wrapped again at the next wall it
      is checked against, and ends the tick back on the left, two draws later. */
  lemma GhostWrapsBack()
    ensures var walls := [Spawn(WallImage, 0, 0, TileSize, TileSize),
                          Spawn(WallImage, TileSize, 0, TileSize, TileSize),
                          Spawn(WallImage, 2 * TileSize, 0, TileSize, TileSize)];
      var g := Spawn(BlueGhostImage, 0, CorridorY, TileSize, TileSize).(direction := L, velocityX := -Speed);
      GhostScan(g, walls, 0, 0, AlwaysRight) == (g.(x := Speed, direction := R, velocityX := Speed), 2) &&
      PacmanScan(g, walls, 0) == g.(x := BoardWidth - TileSize)
  {
    var walls := [Spawn(WallImage, 0, 0, TileSize, TileSize),
                  Spawn(WallImage, TileSize, 0, TileSize, TileSize),
                  Spawn(WallImage, 2 * TileSize, 0, TileSize, TileSize)];
    var g := Spawn(BlueGhostImage, 0, CorridorY, TileSize, TileSize).(direction := L, velocityX := -Speed);
    var g1 := g.(x := BoardWidth - TileSize);
    assert !Blocked(Probe(g1, R).Box(), walls);
    var g2 := Probe(g1, R).(x := 0);
    assert !Blocked(Probe(g2, R).Box(), walls);
    var random := AlwaysRight;
    assert WallCheck(g, walls, 0, 0, random) == (Probe(g1, R), 1);
    assert WallCheck(Probe(g1, R), walls, 1, 1, random) == (Probe(g2, R), 2);
    assert WallCheck(Probe(g2, R), walls, 2, 2, random) == (Probe(g2, R), 2);
    GhostScanStep(g, walls, 0, 0, random);
    GhostScanStep(Probe(g1, R), walls, 1, 1, random);
    GhostScanStep(Probe(g2, R), walls, 2, 2, random);
    assert Probe(g2, R) == g.(x := Speed, direction := R, velocityX := Speed);
  }

  // ---------------------------------------------------------------------------
  // resetPosition

  /** Where `ghost.reset()` puts a ghost. */
  function Home(g: Body): Body {
    g.(x := g.startX, y := g.startY)
  }

  /** The ghost loop of `resetPosition` from ghost i on: back to its start,
      then a turn towards a random direction. */
  function ResetGhosts(gs: seq<Body>, walls: seq<Body>, i: nat, n: nat, random: Random): (res: (seq<Body>, nat))
    ensures |res.0| == |gs| && res.1 == n + (if i <= |gs| then |gs| - i else 0)
    decreases |gs| - i
  {
    if i >= |gs| then (gs, n)
    else
      ResetGhosts(gs[i := Turn(Home(gs[i]), random(n), walls)], walls, i + 1, n + 1, random)
  }

  /** One iteration of the reset loop. */
  lemma ResetGhostsStep(gs: seq<Body>, walls: seq<Body>, i: nat, n: nat, random: Random)
    requires i < |gs|
    ensures ResetGhosts(gs, walls, i, n, random) ==
            ResetGhosts(gs[i := Turn(Home(gs[i]), random(n), walls)], walls, i + 1, n + 1, random)
  {
  }

  /** `resetPosition`: pacman back to its start and stopped; every ghost back
      to its start and re-turned at random. */
  function ResetPositions(w: World, random: Random): (r: World)
    ensures |r.ghosts| == |w.ghosts|
    ensures r.tileMap == w.tileMap && r.walls == w.walls && r.foods == w.foods
    ensures r.score == w.score && r.lives == w.lives && r.gameOver == w.gameOver
  {
    var p := w.pacman.(x := w.pacman.startX, y := w.pacman.startY, velocityX := 0, velocityY := 0);
    var (gs, n) := ResetGhosts(w.ghosts, w.walls, 0, w.draws, random);
    w.(pacman := p, ghosts := gs, draws := n)
  }

  /** A ghost as `resetPosition` leaves it: same image, size and start, a
      velocity matching its facing, and at its start or one step from it. */
  predicate HomeOrOneStep(h: Body, g: Body) {
    SameFrame(h, g) && Steady(h) &&
    ((h.x == g.startX && h.y == g.startY) ||
     (h.x == g.startX + h.velocityX && h.y == g.startY + h.velocityY))
  }

  lemma {:induction false} ResetGhostsPlaces(gs: seq<Body>, walls: seq<Body>, i: nat, n: nat, random: Random)
    requires i <= |gs|
    ensures var res := ResetGhosts(gs, walls, i, n, random);
      (forall j :: 0 <= j < i ==> res.0[j] == gs[j]) &&
      (forall j :: i <= j < |gs| ==> HomeOrOneStep(res.0[j], gs[j]))
    decreases |gs| - i
  {
    if i < |gs| {
      var t := Turn(Home(gs[i]), random(n), walls);
      ResetGhostsPlaces(gs[i := t], walls, i + 1, n + 1, random);
      assert HomeOrOneStep(t, gs[i]);
    }
  }

  /** After `resetPosition`, pacman is at its start with zero velocity and
      every ghost is at its start or one step of its new facing from it. */
  lemma ResetPositionsPlaces(w: World, random: Random)
    ensures var r := ResetPositions(w, random);
      r.pacman.x == w.pacman.startX && r.pacman.y == w.pacman.startY &&
      r.pacman.velocityX == 0 && r.pacman.velocityY == 0 &&
      r.pacman.direction == w.pacman.direction && SameFrame(r.pacman, w.pacman) &&
      forall j :: 0 <= j < |w.ghosts| ==> HomeOrOneStep(r.ghosts[j], w.ghosts[j])
  {
    ResetGhostsPlaces(w.ghosts, w.walls, 0, w.draws, random);
  }

  // ---------------------------------------------------------------------------
  // Phase 2 of `move`, the whole ghost loop

  /** Contact between ghost i and pacman: a life is lost; at zero lives the
      game is over and the tick stops (second component true); otherwise
      everyone goes back to the start. */
  function Contact(w: World, i: nat, random: Random): (res: (World, bool))
    requires i < |w.ghosts|
    ensures var (r, stop) := res;
      |r.ghosts| == |w.ghosts| && r.tileMap == w.tileMap &&
      r.walls == w.walls && r.foods == w.foods && r.score == w.score
    ensures var (r, stop) := res;
      if Collision(w.ghosts[i].Box(), w.pacman.Box()) then
        r.lives == w.lives - 1 && (stop <==> r.lives == 0) && (stop ==> r.gameOver) &&
        (!stop ==> r.gameOver == w.gameOver)
      else
        r == w && !stop
  {
    if Collision(w.ghosts[i].Box(), w.pacman.Box()) then
      if w.lives - 1 == 0 then (w.(lives := 0, gameOver := true), true)
      else (ResetPositions(w.(lives := w.lives - 1), random), false)
    else (w, false)
  }

  /** A contact that leaves a life runs `resetPosition`: the tick goes on
      with one life fewer, pacman at its start and stopped, every ghost at
      its start or one step from it, and one draw per ghost. */
  lemma ContactResets(w: World, i: nat, random: Random)
    requires i < |w.ghosts| && Collision(w.ghosts[i].Box(), w.pacman.Box()) && w.lives != 1
    ensures var (r, stop) := Contact(w, i, random);
      !stop && r.lives == w.lives - 1 && r.gameOver == w.gameOver &&
      r.pacman.x == w.pacman.startX && r.pacman.y == w.pacman.startY &&
      r.pacman.velocityX == 0 && r.pacman.velocityY == 0 &&
      r.pacman.direction == w.pacman.direction && SameFrame(r.pacman, w.pacman) &&
      (forall j :: 0 <= j < |w.ghosts| ==> HomeOrOneStep(r.ghosts[j], w.ghosts[j])) &&
      r.draws == w.draws + |w.ghosts|
  {
    ResetPositionsPlaces(w.(lives := w.lives - 1), random);
  }

  /** The ghost loop of `move` from ghost i on; the flag says that it returned
      early because the last life was lost. */
  function GhostPhase(w: World, i: nat, random: Random): (World, bool)
    decreases |w.ghosts| - i
  {
    if i >= |w.ghosts| then (w, false)
    else
      var (w1, stop) := Contact(w, i, random);
      if stop then (w1, true)
      else
        GhostPhase(MoveGhostAt(w1, i, random), i + 1, random)
  }

  /** The state invariant between ticks. */
  predicate Inv(w: World) {
    Playable(w.tileMap) &&
    0 <= w.lives <= 3 && (w.gameOver <==> w.lives == 0) &&
    0 <= w.score && w.score % 10 == 0 &&
    |w.foods| > 0 &&
    Consistent(w.pacman) &&
    forall g :: g in w.ghosts ==> Steady(g)
  }

  /** While the game runs, the ghost loop loses at most one life per ghost;
      it stops exactly when the lives run out, and then with the game over;
      walls, foods and score are untouched; velocities stay consistent. */
  lemma {:induction false} GhostPhaseLives(w: World, i: nat, random: Random)
    requires 1 <= w.lives && !w.gameOver
    requires Consistent(w.pacman) && forall g :: g in w.ghosts ==> Steady(g)
    ensures var (r, stop) := GhostPhase(w, i, random);
      r.tileMap == w.tileMap && r.walls == w.walls && r.foods == w.foods && r.score == w.score &&
      (stop <==> r.gameOver) &&
      (stop ==> r.lives == 0) &&
      (!stop ==> 1 <= r.lives) &&
      r.lives <= w.lives &&
      r.lives >= w.lives - (if i <= |w.ghosts| then |w.ghosts| - i else 0) &&
      Consistent(r.pacman) && (forall g :: g in r.ghosts ==> Steady(g))
    decreases |w.ghosts| - i
  {
    if i < |w.ghosts| {
      var (w1, stop) := Contact(w, i, random);
      ContactKeeps(w, i, random);
      if !stop {
        MoveGhostAtKeeps(w1, i, random);
        GhostPhaseLives(MoveGhostAt(w1, i, random), i + 1, random);
      }
    }
  }

  /** A contact keeps velocities consistent and every ghost steady. */
  lemma ContactKeeps(w: World, i: nat, random: Random)
    requires i < |w.ghosts|
    requires Consistent(w.pacman) && forall g :: g in w.ghosts ==> Steady(g)
    ensures var (r, stop) := Contact(w, i, random);
      Consistent(r.pacman) && forall g :: g in r.ghosts ==> Steady(g)
  {
    var (w1, stop) := Contact(w, i, random);
    if Collision(w.ghosts[i].Box(), w.pacman.Box()) && !stop {
      ResetPositionsPlaces(w.(lives := w.lives - 1), random);
      forall g | g in w1.ghosts ensures Steady(g) {
        var j :| 0 <= j < |w1.ghosts| && w1.ghosts[j] == g;
        assert HomeOrOneStep(w1.ghosts[j], w.ghosts[j]);
      }
    }
  }

  /** Moving one ghost keeps every ghost steady. */
  lemma MoveGhostAtKeeps(w: World, i: nat, random: Random)
    requires i < |w.ghosts| && forall g :: g in w.ghosts ==> Steady(g)
    ensures forall g :: g in MoveGhostAt(w, i, random).ghosts ==> Steady(g)
  {
    var (g, n) := GhostMove(w.ghosts[i], w.walls, w.draws, random);
    assert w.ghosts[i] in w.ghosts;
    GhostMoveKeeps(w.ghosts[i], w.walls, w.draws, random);
    var w2 := MoveGhostAt(w, i, random);
    assert w2 == w.(ghosts := w.ghosts[i := g], draws := n);
    forall h | h in w2.ghosts ensures Steady(h) {
      var j :| 0 <= j < |w2.ghosts| && w2.ghosts[j] == h;
      if j != i { assert w.ghosts[j] in w.ghosts; }
    }
  }

  /** With one life left, contact with ghost i ends the tick at once: lives 0,
      game over, and nothing else changed. */
  lemma LastLifeEndsTick(w: World, i: nat, random: Random)
    requires i < |w.ghosts| && w.lives == 1
    requires Collision(w.ghosts[i].Box(), w.pacman.Box())
    ensures GhostPhase(w, i, random) == (w.(lives := 0, gameOver := true), true)
  {
  }

  // ---------------------------------------------------------------------------
  // Phase 3 of `move`: food

  /** The index of the first block in `bs` that overlaps `box`, |bs| if none. */
  function FirstHit(box: Rect, bs: seq<Body>): (k: nat)
    ensures k <= |bs|
    ensures k < |bs| ==> Collision(box, bs[k].Box())
    ensures forall j :: 0 <= j < k ==> !Collision(box, bs[j].Box())
    decreases |bs|
  {
    if bs == [] then 0
    else if Collision(box, bs[0].Box()) then 0
    else 1 + FirstHit(box, bs[1..])
  }

  /** `FirstHit` is the only index with its three properties. */
  lemma {:induction false} FirstHitUnique(box: Rect, bs: seq<Body>, k: nat)
    requires k <= |bs|
    requires k < |bs| ==> Collision(box, bs[k].Box())
    requires forall j :: 0 <= j < k ==> !Collision(box, bs[j].Box())
    ensures FirstHit(box, bs) == k
    decreases |bs|
  {
    if bs != [] && !Collision(box, bs[0].Box()) {
      assert k > 0;
      FirstHitUnique(box, bs[1..], k - 1);
    }
  }

  /** The food loop and `foods.delete`: the first food pacman overlaps, if
      any, is removed, and the score rises by 10. */
  function EatFood(w: World): World {
    var k := FirstHit(w.pacman.Box(), w.foods);
    if k < |w.foods| then
      w.(foods := w.foods[..k] + w.foods[k + 1..], score := w.score + 10)
    else
      w
  }

  /** At most one food, one that pacman overlaps, is removed; the score rises
      by 10 exactly when one is; nothing else changes. */
  lemma EatFoodFacts(w: World)
    ensures var r := EatFood(w);
      r == w.(foods := r.foods, score := r.score) &&
      (r.score == w.score + 10 <==> Blocked(w.pacman.Box(), w.foods)) &&
      (Blocked(w.pacman.Box(), w.foods) ==>
        |r.foods| == |w.foods| - 1 &&
        exists k :: 0 <= k < |w.foods| && Collision(w.pacman.Box(), w.foods[k].Box()) &&
          r.foods == w.foods[..k] + w.foods[k + 1..] &&
          multiset(r.foods) + multiset{w.foods[k]} == multiset(w.foods)) &&
      (!Blocked(w.pacman.Box(), w.foods) ==> r == w)
  {
    var k := FirstHit(w.pacman.Box(), w.foods);
    if k < |w.foods| {
      assert w.foods == w.foods[..k] + [w.foods[k]] + w.foods[k + 1..];
    }
  }

  // ---------------------------------------------------------------------------
  // Phase 4 of `move`, and the whole tick

  /** `loadMap`: the three collections replaced by the fixed level's, pacman
      replaced when the level has a spawn for it. */
  function Rebuild(w: World): World {
    var lv := Build(w.tileMap);
    w.(walls := lv.walls, foods := lv.foods, ghosts := lv.ghosts,
       pacman := if lv.pacman.Some? then lv.pacman.value else w.pacman)
  }

  /** A fresh level is loaded and everyone goes back to the start. */
  function NewRound(w: World, random: Random): World {
    ResetPositions(Rebuild(w), random)
  }

  /** A new round has the full set of foods again, pacman at its spawn and
      stopped, every ghost at its spawn or one step from it, and keeps score
      and lives. */
  lemma NewRoundFacts(w: World, random: Random)
    requires Playable(w.tileMap)
    ensures var r := NewRound(w, random);
      r.tileMap == w.tileMap &&
      r.foods == Build(w.tileMap).foods && |r.foods| > 0 && r.walls == Build(w.tileMap).walls &&
      Build(w.tileMap).pacman.Some? &&
      r.pacman == Build(w.tileMap).pacman.value.(velocityX := 0, velocityY := 0) &&
      r.pacman.x == r.pacman.startX && r.pacman.y == r.pacman.startY &&
      |r.ghosts| == |Build(w.tileMap).ghosts| &&
      (forall j :: 0 <= j < |r.ghosts| ==>
         HomeOrOneStep(r.ghosts[j], Build(w.tileMap).ghosts[j])) &&
      (forall g :: g in r.ghosts ==> Steady(g)) &&
      r.score == w.score && r.lives == w.lives && r.gameOver == w.gameOver
  {
    ResetPositionsPlaces(Rebuild(w), random);
    var r := NewRound(w, random);
    forall g | g in r.ghosts ensures Steady(g) {
      var j :| 0 <= j < |r.ghosts| && r.ghosts[j] == g;
      assert HomeOrOneStep(r.ghosts[j], Build(w.tileMap).ghosts[j]);
    }
  }

  /** `move`: pacman phase, ghost phase (which may end the tick), food, and a
      new round once the last food is gone. */
  function Tick(w: World, random: Random): World {
    var w1 := w.(pacman := PacmanStep(w.pacman, w.walls));
    var (w2, stop) := GhostPhase(w1, 0, random);
    if stop then w2
    else
      var w3 := EatFood(w2);
      if |w3.foods| == 0 then NewRound(w3, random) else w3
  }

  /** Food and round completion keep the invariant once the ghost phase has
      run without ending the game. */
  lemma FinishKeepsInv(w2: World, random: Random)
    requires 1 <= w2.lives <= 3 && !w2.gameOver
    requires Playable(w2.tileMap)
    requires 0 <= w2.score && w2.score % 10 == 0 && |w2.foods| > 0
    requires Consistent(w2.pacman) && forall g :: g in w2.ghosts ==> Steady(g)
    ensures var w3 := EatFood(w2);
      var r := if |w3.foods| == 0 then NewRound(w3, random) else w3;
      Inv(r) && r.lives == w2.lives && (r.score == w2.score || r.score == w2.score + 10)
  {
    var w3 := EatFood(w2);
    EatFoodFacts(w2);
    if |w3.foods| == 0 {
      NewRoundFacts(w3, random);
    }
  }

  /** `move` keeps the invariant between ticks; lives never rise and score
      rises by 0 or 10; a tick that ends the game leaves foods and score as
      they were. */
  lemma TickKeepsInv(w: World, random: Random)
    requires Inv(w) && !w.gameOver
    ensures var r := Tick(w, random);
      Inv(r) && r.lives <= w.lives &&
      (r.score == w.score || r.score == w.score + 10) &&
      (r.gameOver ==> r.lives == 0 && r.foods == w.foods && r.score == w.score)
  {
    var w1 := w.(pacman := PacmanStep(w.pacman, w.walls));
    PacmanStepOutcomes(w.pacman, w.walls);
    assert Consistent(w1.pacman);
    GhostPhaseLives(w1, 0, random);
    var (w2, stop) := GhostPhase(w1, 0, random);
    if !stop {
      FinishKeepsInv(w2, random);
    }
  }

  /** `Update`: no step once the game is over. */
  function UpdateStep(w: World, random: Random): World {
    if w.gameOver then w else Tick(w, random)
  }

  /** `Update` keeps the invariant; once the game is over it changes nothing,
      and otherwise lives never rise and the score rises by 0 or 10. */
  lemma UpdateStepKeepsInv(w: World, random: Random)
    requires Inv(w)
    ensures var r := UpdateStep(w, random);
      Inv(r) && r.lives <= w.lives && (r.score == w.score || r.score == w.score + 10) &&
      (w.gameOver ==> r == w)
  {
    if !w.gameOver {
      TickKeepsInv(w, random);
    }
  }

  // ---------------------------------------------------------------------------
  // movePacman

  /** The direction a key code selects: arrow keys or W, S, A, D. */
  function KeyDirection(code: string): Option<Direction> {
    if code == "ArrowUp" || code == "KeyW" then Some(U)
    else if code == "ArrowDown" || code == "KeyS" then Some(D)
    else if code == "ArrowLeft" || code == "KeyA" then Some(L)
    else if code == "ArrowRight" || code == "KeyD" then Some(R)
    else None
  }

  /** The pacman image that shows a facing. */
  function FacingImage(d: Direction): Sprite {
    match d
    case U => PacmanUpImage
    case D => PacmanDownImage
    case L => PacmanLeftImage
    case R => PacmanRightImage
  }

  /** The restart branch: new round, counters back to 3 lives, score 0. */
  function Restart(w: World, random: Random): World {
    NewRound(w, random).(lives := 3, score := 0, gameOver := false)
  }

  /** `movePacman` on a key-up: after game over, restart and run one update;
      otherwise turn pacman towards the key's direction (if any) and show the
      image of its resulting facing. */
  function KeyUp(w: World, code: string, random: Random): World {
    if w.gameOver then
      UpdateStep(Restart(w, random), random)
    else
      var p := match KeyDirection(code)
        case Some(d) => Turn(w.pacman, d, w.walls)
        case None => w.pacman;
      w.(pacman := p.(image := FacingImage(p.direction)))
  }

  /** While playing, a key-up changes pacman alone: it commits or rolls back a
      turn and its image follows its facing. After game over it re-establishes
      the invariant from any state. */
  lemma KeyUpFacts(w: World, code: string, random: Random)
    ensures !w.gameOver ==>
      var r := KeyUp(w, code, random);
      r == w.(pacman := r.pacman) &&
      r.pacman.image == FacingImage(r.pacman.direction) &&
      (KeyDirection(code).None? ==> r.pacman == w.pacman.(image := FacingImage(w.pacman.direction))) &&
      (KeyDirection(code).Some? ==>
         var d := KeyDirection(code).value;
         var t := Turn(w.pacman, d, w.walls);
         r.pacman == t.(image := FacingImage(t.direction)))
    ensures !w.gameOver && Inv(w) ==> Inv(KeyUp(w, code, random))
    ensures w.gameOver && Playable(w.tileMap) ==> Inv(KeyUp(w, code, random))
  {
    if w.gameOver && Playable(w.tileMap) {
      var s := Restart(w, random);
      NewRoundFacts(w, random);
      assert Inv(s);
      TickKeepsInv(s, random);
    }
  }

  // ---------------------------------------------------------------------------
  // Start of the game

  /** The onload loop: every ghost turned towards a random direction. */
  function TurnGhosts(gs: seq<Body>, walls: seq<Body>, i: nat, n: nat, random: Random): (res: (seq<Body>, nat))
    ensures |res.0| == |gs|
    decreases |gs| - i
  {
    if i >= |gs| then (gs, n)
    else TurnGhosts(gs[i := Turn(gs[i], random(n), walls)], walls, i + 1, n + 1, random)
  }

  /** One iteration of the onload loop. */
  lemma TurnGhostsStep(gs: seq<Body>, walls: seq<Body>, i: nat, n: nat, random: Random)
    requires i < |gs|
    ensures TurnGhosts(gs, walls, i, n, random) ==
            TurnGhosts(gs[i := Turn(gs[i], random(n), walls)], walls, i + 1, n + 1, random)
  {
  }

  lemma {:induction false} TurnGhostsSteady(gs: seq<Body>, walls: seq<Body>, i: nat, n: nat, random: Random)
    requires i <= |gs|
    requires forall j :: 0 <= j < i ==> Steady(gs[j])
    ensures forall g :: g in TurnGhosts(gs, walls, i, n, random).0 ==> Steady(g)
    decreases |gs| - i
  {
    if i < |gs| {
      TurnGhostsSteady(gs[i := Turn(gs[i], random(n), walls)], walls, i + 1, n + 1, random);
    } else {
      forall g | g in gs ensures Steady(g) {
        var j :| 0 <= j < |gs| && gs[j] == g;
      }
    }
  }

  /** The state after the globals' initialisation, `loadMap` on `grid` and
      the onload ghost loop. */
  function Opening(grid: Grid, random: Random): World
    requires Playable(grid)
  {
    var lv := Build(grid);
    var (gs, n) := TurnGhosts(lv.ghosts, lv.walls, 0, 0, random);
    World(grid, lv.walls, lv.foods, gs, lv.pacman.value, 0, 3, false, n)
  }

  /** The game starts in a state that satisfies the invariant. */
  lemma OpeningInv(grid: Grid, random: Random)
    requires Playable(grid)
    ensures Inv(Opening(grid, random))
  {
    var lv := Build(grid);
    TurnGhostsSteady(lv.ghosts, lv.walls, 0, 0, random);
  }
}

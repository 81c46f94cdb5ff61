/** The fixed level layout and `loadMap`'s construction of walls, foods, ghosts
    and pacman from it, cell by cell in row-major order. */
module Maze {
  import opened Wrappers
  import opened Geometry
  import opened Bodies

  /** The level: 'X' wall, ' ' floor with a food, 'O' floor without food,
      'b' 'r' 'o' 'p' ghost spawns, 'P' pacman's spawn. */
  const TileMap: seq<string> := [
    "XXXXXXXXXXXXXXXXXXX",
    "X        X        X",
    "X XX XXX X XXX XX X",
    "X                 X",
    "X XX X XXXXX X XX X",
    "X    X       X    X",
    "XXXX XXXX XXXX XXXX",
    "OOOX X       X XOOO",
    "XXXX X XXrXX X XXXX",
    "O       bpo       O",
    "XXXX X XXXXX X XXXX",
    "OOOX X       X XOOO",
    "XXXX X XXXXX X XXXX",
    "X        X        X",
    "X XX XXX X XXX XX X",
    "X  X     P     X  X",
    "XX X X XXXXX X X XX",
    "X    X   X   X    X",
    "X XXXXXX X XXXXXX X",
    "X                 X",
    "XXXXXXXXXXXXXXXXXXX"
  ]

  /** A food is a 4 x 4 square placed 14 pixels into its tile. */
  const FoodOffset: int := 14
  const FoodSize: int := 4

  /** `rowCount` rows of `columnCount` characters each. */
  predicate WellFormed(grid: seq<string>) {
    |grid| == RowCount && forall r :: 0 <= r < |grid| ==> |grid[r]| == ColumnCount
  }

  lemma TileMapWellFormed()
    ensures WellFormed(TileMap)
  {
  }

  /** A tile map of the shape `loadMap` walks. */
  type Grid = g: seq<string> | WellFormed(g) witness TileMap

  /** The blocks `loadMap` has built so far; `pacman` stays unassigned until
      the 'P' cell is reached. */
  datatype Level = Level(walls: seq<Body>, foods: seq<Body>, ghosts: seq<Body>, pacman: Option<Body>)

  /** One cell of `loadMap`'s loop body, for the tile at pixel (x, y). */
  function AddTile(lv: Level, ch: char, x: int, y: int): Level {
    if ch == 'X' then
      lv.(walls := lv.walls + [Spawn(WallImage, x, y, TileSize, TileSize)])
    else if ch == 'b' then
      lv.(ghosts := lv.ghosts + [Spawn(BlueGhostImage, x, y, TileSize, TileSize)])
    else if ch == 'r' then
      lv.(ghosts := lv.ghosts + [Spawn(RedGhostImage, x, y, TileSize, TileSize)])
    else if ch == 'o' then
      lv.(ghosts := lv.ghosts + [Spawn(OrangeGhostImage, x, y, TileSize, TileSize)])
    else if ch == 'p' then
      lv.(ghosts := lv.ghosts + [Spawn(PinkGhostImage, x, y, TileSize, TileSize)])
    else if ch == 'P' then
      lv.(pacman := Some(Spawn(PacmanRightImage, x, y, TileSize, TileSize)))
    else if ch == ' ' then
      lv.(foods := lv.foods + [Spawn(NoImage, x + FoodOffset, y + FoodOffset, FoodSize, FoodSize)])
    else
      lv
  }

  /** Loop position of `loadMap`: row `r`, next column `c`; (RowCount, 0) is the end. */
  predicate Cursor(r: int, c: int) {
    (0 <= r < RowCount && 0 <= c <= ColumnCount) || (r == RowCount && c == 0)
  }

  /** The level after all cells before (r, c) in row-major order. */
  function Scan(grid: seq<string>, r: nat, c: nat): Level
    requires WellFormed(grid) && Cursor(r, c)
    // `grid` closes the measure so that the solver does not unroll Scan from
    // the constant bounds alone, without a known grid.
    decreases r, c, grid
  {
    if c == 0 then
      if r == 0 then Level([], [], [], None) else Scan(grid, r - 1, ColumnCount)
    else
      AddTile(Scan(grid, r, c - 1), grid[r][c - 1], (c - 1) * TileSize, r * TileSize)
  }

  /** The whole level `loadMap` builds from a grid. */
  function Build(grid: seq<string>): Level
    requires WellFormed(grid)
  {
    Scan(grid, RowCount, 0)
  }

  // ---------------------------------------------------------------------------
  // What each cell contributes

  datatype TileKind = WallTile | GhostTile | PacmanTile | FoodTile | NoTile

  function KindOf(ch: char): TileKind {
    if ch == 'X' then WallTile
    else if ch == 'b' || ch == 'r' || ch == 'o' || ch == 'p' then GhostTile
    else if ch == 'P' then PacmanTile
    else if ch == ' ' then FoodTile
    else NoTile
  }

  function GhostImage(ch: char): Sprite {
    if ch == 'b' then BlueGhostImage
    else if ch == 'r' then RedGhostImage
    else if ch == 'o' then OrangeGhostImage
    else PinkGhostImage
  }

  /** The block the cell at row r, column c holding `ch` gives rise to. */
  function Made(ch: char, r: int, c: int): Body {
    match KindOf(ch)
    case WallTile => Spawn(WallImage, c * TileSize, r * TileSize, TileSize, TileSize)
    case GhostTile => Spawn(GhostImage(ch), c * TileSize, r * TileSize, TileSize, TileSize)
    case PacmanTile => Spawn(PacmanRightImage, c * TileSize, r * TileSize, TileSize, TileSize)
    case FoodTile => Spawn(NoImage, c * TileSize + FoodOffset, r * TileSize + FoodOffset, FoodSize, FoodSize)
    case NoTile => Spawn(NoImage, c * TileSize, r * TileSize, 0, 0)
  }

  /** The collection a kind of tile is added to. */
  function Listed(lv: Level, k: TileKind): seq<Body> {
    match k
    case WallTile => lv.walls
    case GhostTile => lv.ghosts
    case FoodTile => lv.foods
    case _ => []
  }

  predicate Collected(k: TileKind) { k == WallTile || k == GhostTile || k == FoodTile }

  /** A cell adds its block to the collection of its kind, sets pacman for 'P'
      and leaves everything else alone. */
  lemma AddTileAppends(lv: Level, ch: char, r: int, c: int)
    ensures var nx := AddTile(lv, ch, c * TileSize, r * TileSize);
      (forall k :: Collected(k) ==>
         Listed(nx, k) == if KindOf(ch) == k then Listed(lv, k) + [Made(ch, r, c)] else Listed(lv, k)) &&
      nx.pacman == if KindOf(ch) == PacmanTile then Some(Made(ch, r, c)) else lv.pacman
  {
  }

  predicate InGrid(r: int, c: int) { 0 <= r < RowCount && 0 <= c < ColumnCount }

  /** Cell (r0, c0) comes before cursor (r, c) in row-major order. */
  predicate Before(r0: int, c0: int, r: int, c: int) { r0 < r || (r0 == r && c0 < c) }

  /** Row-major order of block positions. */
  predicate Earlier(a: Body, b: Body) { a.y < b.y || (a.y == b.y && a.x < b.x) }

  predicate RowMajor(s: seq<Body>) {
    forall i, j :: 0 <= i < j < |s| ==> Earlier(s[i], s[j])
  }

  /** Cell (r0, c0) holds a tile of kind k and `b` is the block it makes. */
  predicate MadeBy(grid: seq<string>, b: Body, k: TileKind, r0: int, c0: int)
    requires WellFormed(grid)
  {
    InGrid(r0, c0) && KindOf(grid[r0][c0]) == k && b == Made(grid[r0][c0], r0, c0)
  }

  lemma MadeEarlier(ch0: char, r0: int, c0: int, ch1: char, r1: int, c1: int)
    requires Collected(KindOf(ch0)) && KindOf(ch0) == KindOf(ch1)
    requires InGrid(r0, c0) && InGrid(r1, c1) && Before(r0, c0, r1, c1)
    ensures Earlier(Made(ch0, r0, c0), Made(ch1, r1, c1))
  {
  }

  /** `b` was made by a cell of kind k before cursor (r, c). */
  ghost predicate Origin(grid: seq<string>, b: Body, k: TileKind, r: int, c: int)
    requires WellFormed(grid)
  {
    exists r0, c0 :: MadeBy(grid, b, k, r0, c0) && Before(r0, c0, r, c)
  }

  /** Every block in the collection of kind k was made by a cell of that kind
      before the cursor. */
  lemma {:induction false} ScanProvenance(grid: seq<string>, r: nat, c: nat, k: TileKind)
    requires WellFormed(grid) && Cursor(r, c) && Collected(k)
    ensures forall b :: b in Listed(Scan(grid, r, c), k) ==> Origin(grid, b, k, r, c)
    decreases r, c
  {
    if c == 0 {
      if r != 0 {
        ScanProvenance(grid, r - 1, ColumnCount, k);
        forall b | b in Listed(Scan(grid, r, c), k)
          ensures Origin(grid, b, k, r, c)
        {
          assert Origin(grid, b, k, r - 1, ColumnCount);
          var r0, c0 :| MadeBy(grid, b, k, r0, c0) && Before(r0, c0, r - 1, ColumnCount);
          assert Before(r0, c0, r, c);
        }
      }
    } else {
      var prev := Scan(grid, r, c - 1);
      ScanProvenance(grid, r, c - 1, k);
      var ch := grid[r][c - 1];
      AddTileAppends(prev, ch, r, c - 1);
      forall b | b in Listed(Scan(grid, r, c), k)
        ensures Origin(grid, b, k, r, c)
      {
        if b in Listed(prev, k) {
          assert Origin(grid, b, k, r, c - 1);
          var r0, c0 :| MadeBy(grid, b, k, r0, c0) && Before(r0, c0, r, c - 1);
          assert Before(r0, c0, r, c);
        } else {
          assert MadeBy(grid, b, k, r, c - 1) && Before(r, c - 1, r, c);
        }
      }
    }
  }

  /** The collection of kind k is in row-major order (so no cell appears twice). */
  lemma {:induction false} ScanOrdered(grid: seq<string>, r: nat, c: nat, k: TileKind)
    requires WellFormed(grid) && Cursor(r, c) && Collected(k)
    ensures RowMajor(Listed(Scan(grid, r, c), k))
    decreases r, c
  {
    if c == 0 {
      if r != 0 {
        ScanOrdered(grid, r - 1, ColumnCount, k);
      }
    } else {
      ScanOrdered(grid, r, c - 1, k);
      var ch := grid[r][c - 1];
      AddTileAppends(Scan(grid, r, c - 1), ch, r, c - 1);
      if KindOf(ch) == k {
        ScanPrecedes(grid, r, c - 1, k);
        AppendRowMajor(Listed(Scan(grid, r, c - 1), k), Made(ch, r, c - 1));
      }
    }
  }

  /** The blocks collected before cell (r, c) all come earlier than its own. */
  lemma ScanPrecedes(grid: seq<string>, r: nat, c: nat, k: TileKind)
    requires WellFormed(grid) && InGrid(r, c) && Collected(k) && KindOf(grid[r][c]) == k
    ensures forall i :: 0 <= i < |Listed(Scan(grid, r, c), k)| ==>
      Earlier(Listed(Scan(grid, r, c), k)[i], Made(grid[r][c], r, c))
  {
    var s := Listed(Scan(grid, r, c), k);
    ScanProvenance(grid, r, c, k);
    forall i | 0 <= i < |s|
      ensures Earlier(s[i], Made(grid[r][c], r, c))
    {
      assert Origin(grid, s[i], k, r, c);
      var r0, c0 :| MadeBy(grid, s[i], k, r0, c0) && Before(r0, c0, r, c);
      MadeEarlier(grid[r0][c0], r0, c0, grid[r][c], r, c);
    }
  }

  lemma AppendRowMajor(s: seq<Body>, m: Body)
    requires RowMajor(s) && forall i :: 0 <= i < |s| ==> Earlier(s[i], m)
    ensures RowMajor(s + [m])
  {
  }

  /** Every cell of kind k before the cursor has its block in the collection. */
  lemma {:induction false} ScanComplete(grid: seq<string>, r: nat, c: nat, k: TileKind)
    requires WellFormed(grid) && Cursor(r, c) && Collected(k)
    ensures forall r0, c0 :: InGrid(r0, c0) && Before(r0, c0, r, c) && KindOf(grid[r0][c0]) == k ==>
      Made(grid[r0][c0], r0, c0) in Listed(Scan(grid, r, c), k)
    decreases r, c
  {
    if c == 0 {
      if r != 0 {
        ScanComplete(grid, r - 1, ColumnCount, k);
      }
    } else {
      var prev := Scan(grid, r, c - 1);
      ScanComplete(grid, r, c - 1, k);
      AddTileAppends(prev, grid[r][c - 1], r, c - 1);
      forall r0, c0 | InGrid(r0, c0) && Before(r0, c0, r, c) && KindOf(grid[r0][c0]) == k
        ensures Made(grid[r0][c0], r0, c0) in Listed(Scan(grid, r, c), k)
      {
        if Before(r0, c0, r, c - 1) {
          assert Made(grid[r0][c0], r0, c0) in Listed(prev, k);
        } else {
          assert r0 == r && c0 == c - 1;
        }
      }
    }
  }

  /** (r0, c0) is the last 'P' cell before cursor (r, c). */
  ghost predicate LastPacmanCell(grid: seq<string>, r0: int, c0: int, r: int, c: int)
    requires WellFormed(grid)
  {
    InGrid(r0, c0) && grid[r0][c0] == 'P' && Before(r0, c0, r, c) &&
    forall r1, c1 :: InGrid(r1, c1) && Before(r0, c0, r1, c1) && Before(r1, c1, r, c) ==> grid[r1][c1] != 'P'
  }

  /** pacman is assigned exactly when a 'P' cell lies before the cursor, and
      then it is the block of the last such cell: each 'P' replaces pacman. */
  lemma {:induction false} ScanFindsPacman(grid: seq<string>, r: nat, c: nat)
    requires WellFormed(grid) && Cursor(r, c)
    ensures var p := Scan(grid, r, c).pacman;
      (p.Some? <==> exists r0, c0 :: InGrid(r0, c0) && Before(r0, c0, r, c) && grid[r0][c0] == 'P') &&
      (p.Some? ==> exists r0, c0 :: LastPacmanCell(grid, r0, c0, r, c) && p.value == Made('P', r0, c0))
    decreases r, c
  {
    if c == 0 {
      if r != 0 {
        ScanFindsPacman(grid, r - 1, ColumnCount);
        var p := Scan(grid, r, c).pacman;
        if p.Some? {
          var r0, c0 :| LastPacmanCell(grid, r0, c0, r - 1, ColumnCount) && p.value == Made('P', r0, c0);
          assert LastPacmanCell(grid, r0, c0, r, c);
        }
        if exists r0, c0 :: InGrid(r0, c0) && Before(r0, c0, r, c) && grid[r0][c0] == 'P' {
          var r0, c0 :| InGrid(r0, c0) && Before(r0, c0, r, c) && grid[r0][c0] == 'P';
          assert Before(r0, c0, r - 1, ColumnCount);
        }
      }
    } else {
      ScanFindsPacman(grid, r, c - 1);
      var ch := grid[r][c - 1];
      AddTileAppends(Scan(grid, r, c - 1), ch, r, c - 1);
      var p := Scan(grid, r, c).pacman;
      if ch == 'P' {
        assert LastPacmanCell(grid, r, c - 1, r, c);
      } else {
        if exists r0, c0 :: InGrid(r0, c0) && Before(r0, c0, r, c) && grid[r0][c0] == 'P' {
          var r0, c0 :| InGrid(r0, c0) && Before(r0, c0, r, c) && grid[r0][c0] == 'P';
          assert Before(r0, c0, r, c - 1);
        }
        if p.Some? {
          var r0, c0 :| LastPacmanCell(grid, r0, c0, r, c - 1) && p.value == Made('P', r0, c0);
          assert LastPacmanCell(grid, r0, c0, r, c);
        }
      }
    }
  }

  /** Every block of the level is as the constructor made it (at its start
      position, facing right, not moving), with the image and size of its
      kind. */
  predicate AsBuilt(lv: Level) {
    (forall b :: b in lv.walls ==> Settled(b) && b.image == WallImage && b.width == b.height == TileSize) &&
    (forall b :: b in lv.foods ==> Settled(b) && b.image == NoImage && b.width == b.height == FoodSize) &&
    (forall b :: b in lv.ghosts ==> Settled(b) && b.width == b.height == TileSize && b.image in {BlueGhostImage, RedGhostImage, OrangeGhostImage, PinkGhostImage}) &&
    (lv.pacman.Some? ==> Settled(lv.pacman.value) && lv.pacman.value.image == PacmanRightImage)
  }

  lemma AddTileAsBuilt(lv: Level, ch: char, x: int, y: int)
    requires AsBuilt(lv)
    ensures AsBuilt(AddTile(lv, ch, x, y))
  {
  }

  /** Every block `loadMap` builds is as the constructor made it. */
  lemma {:induction false} ScanSettled(grid: seq<string>, r: nat, c: nat)
    requires WellFormed(grid) && Cursor(r, c)
    ensures AsBuilt(Scan(grid, r, c))
    decreases r, c
  {
    if c == 0 {
      if r != 0 {
        ScanSettled(grid, r - 1, ColumnCount);
      }
    } else {
      ScanSettled(grid, r, c - 1);
      AddTileAsBuilt(Scan(grid, r, c - 1), grid[r][c - 1], (c - 1) * TileSize, r * TileSize);
    }
  }

  /** `loadMap` builds one 32 x 32 wall at (c * 32, r * 32) per 'X' cell, in
      row-major order, and no other wall. */
  lemma LevelWalls(grid: seq<string>)
    requires WellFormed(grid)
    ensures forall r, c :: InGrid(r, c) && grid[r][c] == 'X' ==>
      Spawn(WallImage, c * TileSize, r * TileSize, TileSize, TileSize) in Build(grid).walls
    ensures forall b :: b in Build(grid).walls ==> Origin(grid, b, WallTile, RowCount, 0)
    ensures RowMajor(Build(grid).walls)
  {
    ScanProvenance(grid, RowCount, 0, WallTile);
    ScanOrdered(grid, RowCount, 0, WallTile);
    ScanComplete(grid, RowCount, 0, WallTile);
    forall r, c | InGrid(r, c) && grid[r][c] == 'X'
      ensures Spawn(WallImage, c * TileSize, r * TileSize, TileSize, TileSize) in Build(grid).walls
    {
      assert Before(r, c, RowCount, 0);
    }
  }

  /** `loadMap` builds one 4 x 4 food at (c * 32 + 14, r * 32 + 14) per ' '
      cell, in row-major order, and no other food. */
  lemma LevelFoods(grid: seq<string>)
    requires WellFormed(grid)
    ensures forall r, c :: InGrid(r, c) && grid[r][c] == ' ' ==>
      Spawn(NoImage, c * TileSize + FoodOffset, r * TileSize + FoodOffset, FoodSize, FoodSize) in Build(grid).foods
    ensures forall b :: b in Build(grid).foods ==> Origin(grid, b, FoodTile, RowCount, 0)
    ensures RowMajor(Build(grid).foods)
  {
    ScanProvenance(grid, RowCount, 0, FoodTile);
    ScanOrdered(grid, RowCount, 0, FoodTile);
    ScanComplete(grid, RowCount, 0, FoodTile);
    forall r, c | InGrid(r, c) && grid[r][c] == ' '
      ensures Spawn(NoImage, c * TileSize + FoodOffset, r * TileSize + FoodOffset, FoodSize, FoodSize) in Build(grid).foods
    {
      assert Before(r, c, RowCount, 0);
    }
  }

  /** `loadMap` builds one ghost per 'b', 'r', 'o', 'p' cell, with that
      ghost's image, in row-major order, and no other ghost. */
  lemma LevelGhosts(grid: seq<string>)
    requires WellFormed(grid)
    ensures forall r, c :: InGrid(r, c) && KindOf(grid[r][c]) == GhostTile ==>
      Spawn(GhostImage(grid[r][c]), c * TileSize, r * TileSize, TileSize, TileSize) in Build(grid).ghosts
    ensures forall b :: b in Build(grid).ghosts ==> Origin(grid, b, GhostTile, RowCount, 0)
    ensures RowMajor(Build(grid).ghosts)
  {
    ScanProvenance(grid, RowCount, 0, GhostTile);
    ScanOrdered(grid, RowCount, 0, GhostTile);
    ScanComplete(grid, RowCount, 0, GhostTile);
    forall r, c | InGrid(r, c) && KindOf(grid[r][c]) == GhostTile
      ensures Spawn(GhostImage(grid[r][c]), c * TileSize, r * TileSize, TileSize, TileSize) in Build(grid).ghosts
    {
      assert Before(r, c, RowCount, 0);
    }
  }

  /** A level `loadMap` can start a game from: it has a pacman spawn and at
      least one food, and every ghost and pacman is at its start, stopped. */
  predicate Playable(grid: Grid) {
    var lv := Build(grid);
    lv.pacman.Some? && Settled(lv.pacman.value) && |lv.foods| > 0 &&
    forall b :: b in lv.ghosts ==> Settled(b)
  }

  /** The fixed tile map is playable, so `loadMap` always assigns pacman and
      leaves the foods non-empty. */
  lemma TileMapPlayable()
    ensures Playable(TileMap)
  {
    TileMapWellFormed();
    assert TileMap[15][9] == 'P' && TileMap[1][1] == ' ';
    assert InGrid(15, 9) && InGrid(1, 1);
    LevelFoods(TileMap);
    ScanFindsPacman(TileMap, RowCount, 0);
    assert Before(15, 9, RowCount, 0);
    ScanSettled(TileMap, RowCount, 0);
  }

  /** The built level's pacman is the block of the grid's last 'P' cell. */
  lemma BuildPacmanAt(grid: seq<string>, r0: int, c0: int)
    requires WellFormed(grid) && LastPacmanCell(grid, r0, c0, RowCount, 0)
    ensures Build(grid).pacman == Some(Made('P', r0, c0))
  {
    ScanFindsPacman(grid, RowCount, 0);
    var r2, c2 :| LastPacmanCell(grid, r2, c2, RowCount, 0) && Build(grid).pacman.value == Made('P', r2, c2);
    if Before(r2, c2, r0, c0) {
      assert false;
    } else if Before(r0, c0, r2, c2) {
      assert false;
    }
  }

  /** On the fixed tile map pacman spawns at row 15, column 9, facing right. */
  lemma TileMapPacman()
    ensures Build(TileMap).pacman == Some(Spawn(PacmanRightImage, 9 * TileSize, 15 * TileSize, TileSize, TileSize))
  {
    TileMapWellFormed();
    TileMapLastPacman();
    BuildPacmanAt(TileMap, 15, 9);
    MadePacman(15, 9);
  }

  /** A 'P' cell makes a right-facing pacman block on that cell. */
  lemma MadePacman(r: int, c: int)
    ensures Made('P', r, c) == Spawn(PacmanRightImage, c * TileSize, r * TileSize, TileSize, TileSize)
  {
  }

  /** Row 15, column 9 is the last 'P' cell of the fixed tile map. */
  lemma TileMapLastPacman()
    requires WellFormed(TileMap)
    ensures LastPacmanCell(TileMap, 15, 9, RowCount, 0)
  {
    PacmanRow();
    RowsBelowPacman();
    forall r1, c1 | InGrid(r1, c1) && Before(15, 9, r1, c1)
      ensures TileMap[r1][c1] != 'P'
    {
      if r1 > 15 {
        assert TileMap[r1][c1] in TileMap[r1];
      }
    }
  }

  /** Row 15 of the fixed tile map holds its only 'P' at column 9. */
  lemma PacmanRow()
    ensures TileMap[15][9] == 'P'
    ensures forall c1 :: 9 < c1 < ColumnCount ==> TileMap[15][c1] != 'P'
  {
    var row := TileMap[15];
    assert row == "X  X     P     X  X";
    assert row[10..] == "     X  X" && 'P' !in row[10..];
    forall c1 | 9 < c1 < ColumnCount
      ensures row[c1] != 'P'
    {
      assert row[c1] == row[10..][c1 - 10];
    }
  }

  /** No row below row 15 of the fixed tile map holds a 'P'. */
  lemma RowsBelowPacman()
    ensures forall r1 :: 15 < r1 < RowCount ==> 'P' !in TileMap[r1]
  {
    assert 'P' !in TileMap[16] && 'P' !in TileMap[17] && 'P' !in TileMap[18];
    assert 'P' !in TileMap[19] && 'P' !in TileMap[20];
  }
}

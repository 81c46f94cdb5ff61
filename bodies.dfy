/** The value-level view of one `Block`: its fields as a record, the velocity
    each facing implies, and the transactional turn `updateDirection`. */
module Bodies {
  import opened Geometry

  datatype Direction = U | D | L | R

  /** The image handle a block carries; only its identity matters. `NoImage`
      stands for the `null` image of a food. */
  datatype Sprite =
    | NoImage
    | WallImage
    | BlueGhostImage | RedGhostImage | OrangeGhostImage | PinkGhostImage
    | PacmanUpImage | PacmanDownImage | PacmanLeftImage | PacmanRightImage

  function Abs(n: int): nat { if n < 0 then -n else n }

  /** The velocity `updateVelocity` derives from a facing. */
  function Velocity(d: Direction): (v: (int, int))
    ensures (v.0 == 0) != (v.1 == 0)
    ensures Abs(v.0) + Abs(v.1) == Speed
    ensures v.0 == 0 <==> d == U || d == D
    ensures v.0 < 0 <==> d == L
    ensures v.1 < 0 <==> d == U
  {
    match d
    case U => (0, -Speed)
    case D => (0, Speed)
    case L => (-Speed, 0)
    case R => (Speed, 0)
  }

  lemma VelocityDeterminesDirection(d: Direction, e: Direction)
    ensures Velocity(d) == Velocity(e) <==> d == e
  {
  }

  /** Every field of a `Block`. */
  datatype Body = Body(
    image: Sprite,
    x: int, y: int,
    width: int, height: int,
    startX: int, startY: int,
    direction: Direction,
    velocityX: int, velocityY: int)
  {
    function Box(): Rect { Rect(x, y, width, height) }
  }

  /** The body the `Block` constructor produces. */
  function Spawn(image: Sprite, x: int, y: int, width: int, height: int): (b: Body)
    ensures b.Box() == Rect(x, y, width, height) && b.image == image
    ensures Settled(b)
  {
    Body(image, x, y, width, height, x, y, R, 0, 0)
  }

  /** What a freshly constructed block looks like: at its start position,
      facing right, not moving. */
  predicate Settled(b: Body) {
    b.x == b.startX && b.y == b.startY && b.direction == R &&
    b.velocityX == 0 && b.velocityY == 0
  }

  /** Velocity is the one its facing implies. */
  predicate Steady(b: Body) {
    (b.velocityX, b.velocityY) == Velocity(b.direction)
  }

  /** Velocity is zero or the one its facing implies: non-zero on at most one
      axis, with magnitude tileSize / 4. */
  predicate Consistent(b: Body) {
    (b.velocityX == 0 && b.velocityY == 0) || Steady(b)
  }

  /** The same block moved by one step of its own velocity. */
  function Advance(b: Body): Body {
    b.(x := b.x + b.velocityX, y := b.y + b.velocityY)
  }

  /** The same block moved back by one step of its own velocity. */
  function Retreat(b: Body): Body {
    b.(x := b.x - b.velocityX, y := b.y - b.velocityY)
  }

  /** Same image, size and start position: what no movement changes. */
  predicate SameFrame(a: Body, b: Body) {
    a.image == b.image && a.width == b.width && a.height == b.height &&
    a.startX == b.startX && a.startY == b.startY
  }

  /** Some wall overlaps the box. */
  predicate Blocked(box: Rect, walls: seq<Body>) {
    exists i :: 0 <= i < |walls| && Collision(box, walls[i].Box())
  }

  /** Facing `d` and one step of its velocity taken: the probe of a turn. */
  function Probe(b: Body, d: Direction): Body {
    var v := Velocity(d);
    b.(direction := d, velocityX := v.0, velocityY := v.1, x := b.x + v.0, y := b.y + v.1)
  }

  /** `updateDirection(d)`: apply the facing and step once; if a wall overlaps
      the new position, step back and restore the previous facing, whose
      velocity is recomputed. */
  function Turn(b: Body, d: Direction, walls: seq<Body>): Body {
    var p := Probe(b, d);
    if Blocked(p.Box(), walls) then
      var back := Velocity(b.direction);
      p.(x := p.x - p.velocityX, y := p.y - p.velocityY,
         direction := b.direction, velocityX := back.0, velocityY := back.1)
    else
      p
  }

  /** A turn keeps image, size and start and leaves a velocity that matches
      the facing; it commits to `d` with one step exactly when that step is
      free, and otherwise keeps position and facing. */
  lemma TurnFacts(b: Body, d: Direction, walls: seq<Body>)
    ensures var r := Turn(b, d, walls);
      SameFrame(r, b) && Steady(r)
    ensures var r := Turn(b, d, walls);
      !Blocked(Probe(b, d).Box(), walls) ==>
        r.direction == d &&
        r.x == b.x + Velocity(d).0 && r.y == b.y + Velocity(d).1 &&
        !Blocked(r.Box(), walls)
    ensures var r := Turn(b, d, walls);
      Blocked(Probe(b, d).Box(), walls) ==>
        r.x == b.x && r.y == b.y && r.direction == b.direction
  {
  }

  /** A turn either commits or leaves position and facing as they were;
      rolling back keeps the velocity only when it already matched the facing. */
  lemma TurnCommitsOrRollsBack(b: Body, d: Direction, walls: seq<Body>)
    ensures var r := Turn(b, d, walls);
      (r.direction == d && r.x == b.x + Velocity(d).0 && r.y == b.y + Velocity(d).1 &&
       !Blocked(r.Box(), walls))
      ||
      (r.x == b.x && r.y == b.y && r.direction == b.direction &&
       (Steady(b) ==> r == b))
  {
  }

  /** Turning towards the facing a block already has, when free, is one step. */
  lemma TurnSameWayIsAdvance(b: Body, walls: seq<Body>)
    requires Steady(b) && !Blocked(Advance(b).Box(), walls)
    ensures Turn(b, b.direction, walls) == Advance(b)
  {
  }
}

/** The `Block` class: every wall, food, ghost and pacman is one. Position,
    facing, velocity and image change in place; size and start position are
    fixed by the constructor. */
module Blocks {
  import opened Geometry
  import opened Bodies

  class Block {
    var image: Sprite
    var x: int
    var y: int
    const width: int
    const height: int
    const startX: int
    const startY: int
    var direction: Direction
    var velocityX: int
    var velocityY: int

    function Box(): Rect
      reads this
    {
      Rect(x, y, width, height)
    }

    /** The block's fields as a value. */
    function State(): (b: Body)
      reads this
      ensures b.Box() == Box()
    {
      Body(image, x, y, width, height, startX, startY, direction, velocityX, velocityY)
    }

    /** A block at (x, y), which is also its start, facing right, not moving. */
    constructor (image: Sprite, x: int, y: int, width: int, height: int)
      ensures State() == Spawn(image, x, y, width, height)
    {
      this.image := image;
      this.x := x;
      this.y := y;
      this.width := width;
      this.height := height;
      this.startX := x;
      this.startY := y;
      this.direction := R;
      this.velocityX := 0;
      this.velocityY := 0;
    }

    /** `updateDirection`: face `direction`, take one step, and undo both if
        that step overlaps one of the walls. */
    method UpdateDirection(direction: Direction, walls: seq<Block>)
      requires this !in walls
      modifies this
      ensures State() == Turn(old(State()), direction, States(walls))
    {
      var prevDirection := this.direction;
      Face(direction);
      var hit := HitsWall(walls);
      if hit {
        StepBack(prevDirection);
      }
    }

    /** Face `direction` and take one step of its velocity. */
    method Face(direction: Direction)
      modifies this
      ensures State() == Probe(old(State()), direction)
    {
      this.direction := direction;
      UpdateVelocity();
      x := x + velocityX;
      y := y + velocityY;
    }

    /** Undo one step and face `direction` again, with its velocity. */
    method StepBack(direction: Direction)
      modifies this
      ensures var b := old(State()); var v := Velocity(direction);
        State() == b.(x := b.x - b.velocityX, y := b.y - b.velocityY,
                      direction := direction, velocityX := v.0, velocityY := v.1)
    {
      x := x - velocityX;
      y := y - velocityY;
      this.direction := direction;
      UpdateVelocity();
    }

    /** The wall loop of `updateDirection`: whether some wall overlaps the
        block where it stands now. */
    method HitsWall(walls: seq<Block>) returns (hit: bool)
      ensures hit == Blocked(Box(), States(walls))
    {
      var i := 0;
      while i < |walls|
        invariant 0 <= i <= |walls|
        invariant forall j :: 0 <= j < i ==> !Collision(Box(), States(walls)[j].Box())
      {
        if Collision(Box(), walls[i].Box()) {
          assert Collision(Box(), States(walls)[i].Box());
          return true;
        }
        i := i + 1;
      }
      return false;
    }

    /** `updateVelocity`: the velocity of the current facing. */
    method UpdateVelocity()
      modifies this`velocityX, this`velocityY
      ensures (velocityX, velocityY) == Velocity(direction)
    {
      if direction == U {
        velocityX := 0;
        velocityY := -TileSize / 4;
      } else if direction == D {
        velocityX := 0;
        velocityY := TileSize / 4;
      } else if direction == L {
        velocityX := -TileSize / 4;
        velocityY := 0;
      } else if direction == R {
        velocityX := TileSize / 4;
        velocityY := 0;
      }
    }

    /** `reset`: back to the start position. */
    method Reset()
      modifies this`x, this`y
      ensures x == startX && y == startY
    {
      x := startX;
      y := startY;
    }
  }

  /** The states of a sequence of blocks, in order. */
  function States(bs: seq<Block>): (r: seq<Body>)
    reads bs
    ensures |r| == |bs| && forall i :: 0 <= i < |bs| ==> r[i] == bs[i].State()
  {
    seq(|bs|, i requires 0 <= i < |bs| reads bs => bs[i].State())
  }

  /** No block occurs twice. */
  predicate Distinct(bs: seq<Block>) {
    forall i, j :: 0 <= i < |bs| && 0 <= j < |bs| && i != j ==> bs[i] != bs[j]
  }

  /** Appending a block appends its state. */
  lemma StatesAppend(bs: seq<Block>, b: Block)
    ensures States(bs + [b]) == States(bs) + [b.State()]
  {
    var r := States(bs + [b]);
    assert forall j :: 0 <= j < |bs| ==> (bs + [b])[j] == bs[j];
    assert r[|bs|] == (bs + [b])[|bs|].State();
  }

  lemma DistinctAppend(bs: seq<Block>, b: Block)
    requires Distinct(bs) && b !in bs
    ensures Distinct(bs + [b])
    ensures forall c :: c in bs + [b] <==> c in bs || c == b
  {
  }

  /** Removing the block at k removes its state at k. */
  lemma StatesDelete(bs: seq<Block>, k: nat)
    requires k < |bs|
    ensures States(bs[..k] + bs[k + 1..]) == States(bs)[..k] + States(bs)[k + 1..]
  {
    var r := States(bs[..k] + bs[k + 1..]);
    var s := States(bs)[..k] + States(bs)[k + 1..];
    assert |r| == |s|;
    forall j | 0 <= j < |r| ensures r[j] == s[j] {
      if j < k {
        assert (bs[..k] + bs[k + 1..])[j] == bs[j];
      } else {
        assert (bs[..k] + bs[k + 1..])[j] == bs[j + 1];
      }
    }
  }

  /** Removing the block at k keeps the others distinct and adds none. */
  lemma DeleteKeeps(bs: seq<Block>, k: nat)
    requires k < |bs| && Distinct(bs)
    ensures Distinct(bs[..k] + bs[k + 1..])
    ensures forall b :: b in bs[..k] + bs[k + 1..] ==> b in bs
  {
    var r := bs[..k] + bs[k + 1..];
    assert forall j :: 0 <= j < |r| ==> r[j] == bs[if j < k then j else j + 1];
  }
}

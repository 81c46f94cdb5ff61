/** Board dimensions and the rectangle overlap test that every wall, food and
    ghost interaction of the game goes through. All coordinates are pixels. */
module Geometry {

  const RowCount: int := 21
  const ColumnCount: int := 19
  const TileSize: int := 32
  const BoardWidth: int := ColumnCount * TileSize
  /** tileSize / 4: the distance a moving block covers in one tick. */
  const Speed: int := TileSize / 4

  /** The bounding box of a block: top-left corner and size. */
  datatype Rect = Rect(x: int, y: int, width: int, height: int)

  /** `collision(a, b)`: the boxes overlap, all four comparisons strict. */
  predicate Collision(a: Rect, b: Rect) {
    a.x < b.x + b.width &&
    a.x + a.width > b.x &&
    a.y < b.y + b.height &&
    a.y + a.height > b.y
  }

  /** The pixel (px, py) lies in the half-open box `r`. */
  predicate Covers(r: Rect, px: int, py: int) {
    r.x <= px < r.x + r.width && r.y <= py < r.y + r.height
  }

  lemma CollisionSymmetric(a: Rect, b: Rect)
    ensures Collision(a, b) == Collision(b, a)
  {
  }

  /** Boxes that only touch along an edge do not collide. */
  lemma EdgeContactIsNoCollision(a: Rect, b: Rect)
    requires a.x + a.width == b.x || b.x + b.width == a.x ||
             a.y + a.height == b.y || b.y + b.height == a.y
    ensures !Collision(a, b) && !Collision(b, a)
  {
  }

  /** For boxes of positive size, the strict test holds exactly when some pixel
      is covered by both boxes: an independent reading of the overlap test. */
  lemma CollisionIffSharedPixel(a: Rect, b: Rect)
    requires a.width > 0 && a.height > 0 && b.width > 0 && b.height > 0
    ensures Collision(a, b) <==> exists px, py :: Covers(a, px, py) && Covers(b, px, py)
  {
    if Collision(a, b) {
      var px := if a.x < b.x then b.x else a.x;
      var py := if a.y < b.y then b.y else a.y;
      assert Covers(a, px, py) && Covers(b, px, py);
    }
  }
}

/** Axis-aligned rectangles and the game's collision test. Coordinates are
    canvas pixels: x grows to the right, y grows downwards. */
module Geometry {

  /** A rectangle given by its top-left corner and its size. */
  datatype Rect = Rect(x: real, y: real, width: real, height: real)

  /** The collision test of the game: two rectangles collide unless one lies
      strictly to the left, right, top or bottom of the other. Because the
      separating comparisons are strict, edges that merely touch collide. */
  function IsColliding(a: Rect, b: Rect): (r: bool)
    ensures r <==> (a.x <= b.x + b.width && b.x <= a.x + a.width &&
                    a.y <= b.y + b.height && b.y <= a.y + a.height)
  {
    !(a.x > b.x + b.width ||
      a.x + a.width < b.x ||
      a.y > b.y + b.height ||
      a.y + a.height < b.y)
  }

  /** The test does not depend on the order of its arguments. */
  lemma CollisionSymmetric(a: Rect, b: Rect)
    ensures IsColliding(a, b) == IsColliding(b, a)
  {
  }

  /** Rectangles whose vertical edges touch (and whose rows overlap) collide. */
  lemma TouchingVerticalEdgesCollide(a: Rect, b: Rect)
    requires a.x + a.width == b.x
    requires a.width >= 0.0 && b.width >= 0.0
    requires a.y <= b.y + b.height && b.y <= a.y + a.height
    ensures IsColliding(a, b) && IsColliding(b, a)
  {
  }

  /** Rectangles whose horizontal edges touch (and whose columns overlap)
      collide. */
  lemma TouchingHorizontalEdgesCollide(a: Rect, b: Rect)
    requires a.y + a.height == b.y
    requires a.height >= 0.0 && b.height >= 0.0
    requires a.x <= b.x + b.width && b.x <= a.x + a.width
    ensures IsColliding(a, b) && IsColliding(b, a)
  {
  }

  /** A rectangle of non-negative size collides with itself. */
  lemma SelfCollides(a: Rect)
    requires a.width >= 0.0 && a.height >= 0.0
    ensures IsColliding(a, a)
  {
  }

  /** Rectangles separated by a gap on either axis do not collide. */
  lemma GapSeparates(a: Rect, b: Rect)
    requires a.x + a.width < b.x || a.y + a.height < b.y
    ensures !IsColliding(a, b) && !IsColliding(b, a)
  {
  }
}

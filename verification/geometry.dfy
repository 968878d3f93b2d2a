/** Points, boxes and the two hit tests of the board (src/main.js:31-39, 46-50, 56-63). */
module Geometry {

  /** A position on the play surface. */
  datatype Point = Point(x: real, y: real)

  /** Point.translate: the point moved by (dx, dy). */
  function Translate(p: Point, dx: real, dy: real): (q: Point)
    ensures q.x - p.x == dx && q.y - p.y == dy
  {
    Point(p.x + dx, p.y + dy)
  }

  /** How far the mouse moved from `from` to `to`, as a (dx, dy) pair. */
  function Displacement(from: Point, to: Point): Point
  {
    Point(to.x - from.x, to.y - from.y)
  }

  /** Anything with a top-left point, a width and a height: a card, a pile, the deck face. */
  datatype Rect = Rect(point: Point, width: real, height: real)

  /** isColliding: axis-aligned box overlap, strict on every side. */
  predicate IsColliding(r1: Rect, r2: Rect)
    ensures IsColliding(r1, r2) ==> r1.width + r2.width > 0.0 && r1.height + r2.height > 0.0
  {
    r1.point.x < r2.point.x + r2.width &&
    r1.point.x + r1.width > r2.point.x &&
    r1.point.y < r2.point.y + r2.height &&
    r1.point.y + r1.height > r2.point.y
  }

  /** isClicked: the mouse lies strictly inside the box (its border does not count). */
  predicate IsClicked(p: Point, r: Rect)
    ensures IsClicked(p, r) ==> r.width > 0.0 && r.height > 0.0
  {
    var heightHit := p.y > r.point.y && p.y < r.point.y + r.height;
    var widthHit := p.x > r.point.x && p.x < r.point.x + r.width;
    heightHit && widthHit
  }

  /** Overlap does not depend on which box is the dragged one. */
  lemma {:induction false} CollidingSymmetric(r1: Rect, r2: Rect)
    ensures IsColliding(r1, r2) <==> IsColliding(r2, r1)
  {
  }

  /** A box collides with another exactly when their open x-ranges and y-ranges both meet. */
  lemma {:induction false} CollidingIffSharedPoint(r1: Rect, r2: Rect)
    requires r1.width > 0.0 && r1.height > 0.0 && r2.width > 0.0 && r2.height > 0.0
    ensures IsColliding(r1, r2) <==> exists p: Point :: IsClicked(p, r1) && IsClicked(p, r2)
  {
    if IsColliding(r1, r2) {
      var lx := if r1.point.x < r2.point.x then r2.point.x else r1.point.x;
      var hx := if r1.point.x + r1.width < r2.point.x + r2.width then r1.point.x + r1.width else r2.point.x + r2.width;
      var ly := if r1.point.y < r2.point.y then r2.point.y else r1.point.y;
      var hy := if r1.point.y + r1.height < r2.point.y + r2.height then r1.point.y + r1.height else r2.point.y + r2.height;
      var p := Point((lx + hx) / 2.0, (ly + hy) / 2.0);
      assert IsClicked(p, r1) && IsClicked(p, r2);
    }
  }

  /** Moving the mouse and a box by the same amount keeps a hit a hit. */
  lemma {:induction false} ClickedTranslate(p: Point, r: Rect, dx: real, dy: real)
    ensures IsClicked(Translate(p, dx, dy), Rect(Translate(r.point, dx, dy), r.width, r.height)) <==> IsClicked(p, r)
  {
  }

  /** Point.translate moves a point by exactly (dx, dy): the displacement from the old point to
      the new one is (dx, dy), translating back by (-dx, -dy) restores the point, and two
      translations add up. */
  lemma {:induction false} TranslateRoundTrip(p: Point, dx: real, dy: real, ex: real, ey: real)
    ensures Displacement(p, Translate(p, dx, dy)) == Point(dx, dy)
    ensures Translate(Translate(p, dx, dy), -dx, -dy) == p
    ensures Translate(Translate(p, dx, dy), ex, ey) == Translate(p, dx + ex, dy + ey)
  {
  }

  /** A box without area is never clicked. */
  lemma {:induction false} NoAreaNoClick(p: Point, r: Rect)
    requires r.width <= 0.0 || r.height <= 0.0
    ensures !IsClicked(p, r)
  {
  }
}

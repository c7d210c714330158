/** The half-open rectangles of include/geometry/rectangle.h, [top_left, bottom_right). Sizes
    may be zero or negative. Coordinates are unbounded here; the 32-bit form is related to
    this one below. */
module Rectangles {
  import opened Common

  datatype Point = Point(x: int, y: int)
  datatype Size = Size(width: int, height: int)

  datatype Rectangle = Rectangle(topLeft: Point, size: Size) {
    function Left(): int { topLeft.x }
    function Right(): int { topLeft.x + size.width }
    function Top(): int { topLeft.y }
    function Bottom(): int { topLeft.y + size.height }

    predicate Contains(p: Point) {
      && size.width != 0 && size.height != 0
      && Left() <= p.x < Right() && Top() <= p.y < Bottom()
    }

    predicate ContainsRectangle(r: Rectangle) {
      r.Left() >= Left() && r.Right() <= Right() && r.Top() >= Top() && r.Bottom() <= Bottom()
    }

    predicate Overlaps(r: Rectangle) {
      var disjoint :=
        || r.Left() >= Right() || r.Right() <= Left() || r.Top() >= Bottom() || r.Bottom() <= Top()
        || size.width == 0 || size.height == 0 || r.size.width == 0 || r.size.height == 0;
      !disjoint
    }

    predicate Positive() { size.width > 0 && size.height > 0 }
  }

  const EMPTY := Rectangle(Point(0, 0), Size(0, 0))

  function IntersectionOf(a: Rectangle, b: Rectangle): Rectangle {
    var maxLeft, minRight := Max(a.Left(), b.Left()), Min(a.Right(), b.Right());
    var maxTop, minBottom := Max(a.Top(), b.Top()), Min(a.Bottom(), b.Bottom());
    if maxLeft < minRight && maxTop < minBottom
    then Rectangle(Point(maxLeft, maxTop), Size(minRight - maxLeft, minBottom - maxTop))
    else EMPTY
  }

  // -------------------------------------------------------------------- meaning

  /** The set of points: a point is in the intersection exactly if it is in both. */
  lemma IntersectionContains(a: Rectangle, b: Rectangle, p: Point)
    ensures IntersectionOf(a, b).Contains(p) <==> a.Contains(p) && b.Contains(p)
  {
  }

  /** The near edges belong to the rectangle and the far ones do not; one without a positive
      size has no points. */
  lemma EdgesAreHalfOpen(r: Rectangle, x: int, y: int)
    ensures r.Positive() <==> r.Contains(r.topLeft)
    ensures r.Positive() <==> r.Contains(Point(r.Right() - 1, r.Bottom() - 1))
    ensures !r.Contains(Point(r.Right(), y)) && !r.Contains(Point(x, r.Bottom()))
    ensures !r.Contains(Point(r.Left() - 1, y)) && !r.Contains(Point(x, r.Top() - 1))
    ensures r.Contains(Point(x, y)) ==> r.Positive()
  {
  }

  /** A rectangle of positive size is determined by its points, and the others have none. */
  lemma PointsDetermine(a: Rectangle, b: Rectangle)
    requires a.Positive() && forall p :: a.Contains(p) <==> b.Contains(p)
    ensures a == b
  {
    var first := a.topLeft;
    var last := Point(a.Right() - 1, a.Bottom() - 1);
    assert a.Contains(first) && a.Contains(last);
    assert b.Contains(first) && b.Contains(last);
    assert b.Contains(b.topLeft) && b.Contains(Point(b.Right() - 1, b.Bottom() - 1));
    assert a.Contains(b.topLeft) && a.Contains(Point(b.Right() - 1, b.Bottom() - 1));
  }

  /** What comes out is the canonical empty rectangle or one of positive size. */
  lemma IntersectionIsCanonical(a: Rectangle, b: Rectangle)
    ensures IntersectionOf(a, b) == EMPTY || IntersectionOf(a, b).Positive()
  {
  }

  lemma NoPointsIsEmpty(a: Rectangle)
    requires a == EMPTY || a.Positive()
    requires forall p :: !a.Contains(p)
    ensures a == EMPTY
  {
    assert !a.Contains(a.topLeft);
  }

  /** The intersection is the only canonical rectangle with the common points of both. */
  lemma IntersectionIsUnique(a: Rectangle, b: Rectangle, r: Rectangle)
    requires r == EMPTY || r.Positive()
    requires forall p :: r.Contains(p) <==> a.Contains(p) && b.Contains(p)
    ensures r == IntersectionOf(a, b)
  {
    var i := IntersectionOf(a, b);
    forall p
      ensures r.Contains(p) <==> i.Contains(p)
    {
      IntersectionContains(a, b, p);
    }
    IntersectionIsCanonical(a, b);
    if r.Positive() {
      PointsDetermine(r, i);
    } else {
      NoPointsIsEmpty(i);
    }
  }

  /** The intersection is associative, as a value and not only as a set of points. */
  lemma IntersectionAssociates(a: Rectangle, b: Rectangle, c: Rectangle)
    ensures IntersectionOf(IntersectionOf(a, b), c) == IntersectionOf(a, IntersectionOf(b, c))
  {
  }

  /** Containment is a partial order on all rectangles, empty ones included. */
  lemma ContainmentIsAnOrder(a: Rectangle, b: Rectangle, c: Rectangle)
    ensures a.ContainsRectangle(a)
    ensures a.ContainsRectangle(b) && b.ContainsRectangle(a) ==> a == b
    ensures a.ContainsRectangle(b) && b.ContainsRectangle(c) ==> a.ContainsRectangle(c)
  {
  }

  lemma IntersectionLaws(a: Rectangle, b: Rectangle)
    ensures IntersectionOf(a, b) == IntersectionOf(b, a)
    ensures IntersectionOf(a, EMPTY) == EMPTY
    ensures a.Positive() ==> IntersectionOf(a, a) == a
    ensures a.Positive() ==> (b.ContainsRectangle(a) <==> IntersectionOf(b, a) == a)
  {
  }

  /** The rectangles share a point exactly if the intersection has positive size, and for
      sizes that are not negative `overlaps` says so. */
  lemma OverlapsIffIntersects(a: Rectangle, b: Rectangle)
    ensures IntersectionOf(a, b).Positive() <==> exists p :: a.Contains(p) && b.Contains(p)
    ensures IntersectionOf(a, b).Positive() <==> a.Overlaps(b) && a.Positive() && b.Positive()
    ensures a.size.width >= 0 && a.size.height >= 0 && b.size.width >= 0 && b.size.height >= 0 ==>
              (a.Overlaps(b) <==> IntersectionOf(a, b).Positive())
  {
    var i := IntersectionOf(a, b);
    if i.Positive() {
      IntersectionContains(a, b, i.topLeft);
    } else if p :| a.Contains(p) && b.Contains(p) {
      IntersectionContains(a, b, p);
      assert false;
    }
  }

  /** On one axis, two intervals that go forwards and have a point in common. */
  predicate Proper(from: int, to: int, from': int, to': int) {
    from < to && from' < to' && from < to' && from' < to
  }

  /** On one axis, one interval goes backwards and lies strictly inside the other. */
  predicate Backwards(from: int, to: int, from': int, to': int) {
    from' < to < from < to' || from < to' < from' < to
  }

  /** For all sizes: `overlaps` says otherwise exactly if on one axis one of the rectangles goes
      backwards inside the other, and on the other axis they do so too or have a point in common. */
  lemma OverlapsWrongIff(a: Rectangle, b: Rectangle)
    ensures var x := Backwards(a.Left(), a.Right(), b.Left(), b.Right());
            var y := Backwards(a.Top(), a.Bottom(), b.Top(), b.Bottom());
            (a.Overlaps(b) <==> exists p :: a.Contains(p) && b.Contains(p)) <==>
            !(|| (x && (y || Proper(a.Top(), a.Bottom(), b.Top(), b.Bottom())))
              || (y && Proper(a.Left(), a.Right(), b.Left(), b.Right())))
  {
    OverlapsIffIntersects(a, b);
  }

  /** With a negative size `overlaps` may hold without a common point. */
  lemma NegativeSizeMayOverlap()
    ensures var a, b := Rectangle(Point(0, 0), Size(-2, 5)), Rectangle(Point(-10, 0), Size(20, 5));
            a.Overlaps(b) && IntersectionOf(a, b) == EMPTY
  {
  }

  // --------------------------------------------------------------------- 32 bits

  /** The computations of the C++ code, each sum and difference wrapped. */
  function Right32(r: Rectangle): int { Wrap(r.topLeft.x + r.size.width) }
  function Bottom32(r: Rectangle): int { Wrap(r.topLeft.y + r.size.height) }

  predicate Contains32(r: Rectangle, p: Point) {
    && r.size.width != 0 && r.size.height != 0
    && r.Left() <= p.x < Right32(r) && r.Top() <= p.y < Bottom32(r)
  }

  predicate ContainsRectangle32(a: Rectangle, b: Rectangle) {
    b.Left() >= a.Left() && Right32(b) <= Right32(a) && b.Top() >= a.Top() && Bottom32(b) <= Bottom32(a)
  }

  predicate Overlaps32(a: Rectangle, b: Rectangle) {
    var disjoint :=
      || b.Left() >= Right32(a) || Right32(b) <= a.Left() || b.Top() >= Bottom32(a) || Bottom32(b) <= a.Top()
      || a.size.width == 0 || a.size.height == 0 || b.size.width == 0 || b.size.height == 0;
    !disjoint
  }

  function IntersectionOf32(a: Rectangle, b: Rectangle): Rectangle {
    var maxLeft, minRight := Max(a.topLeft.x, b.topLeft.x), Min(Right32(a), Right32(b));
    var maxTop, minBottom := Max(a.topLeft.y, b.topLeft.y), Min(Bottom32(a), Bottom32(b));
    if maxLeft < minRight && maxTop < minBottom
    then Rectangle(Point(maxLeft, maxTop), Size(Wrap(minRight - maxLeft), Wrap(minBottom - maxTop)))
    else EMPTY
  }

  predicate EdgesFit(r: Rectangle) {
    && Int32(r.Left()) && Int32(r.Right()) && Int32(r.Top()) && Int32(r.Bottom())
    && Int32(r.size.width) && Int32(r.size.height)
  }

  /** The far edges are right exactly if they fit 32 bits. */
  lemma EdgesAreExactIff(r: Rectangle)
    ensures Right32(r) == r.Right() <==> Int32(r.Right())
    ensures Bottom32(r) == r.Bottom() <==> Int32(r.Bottom())
  {
    WrapIsIdentity(r.Right());
    WrapIsIdentity(r.Bottom());
  }

  /** The intersection of rectangles whose edges fit has edges and a size that fit. */
  lemma IntersectionFits(a: Rectangle, b: Rectangle)
    requires EdgesFit(a) && EdgesFit(b)
    ensures EdgesFit(IntersectionOf(a, b))
  {
  }

  /** If the edges of both rectangles fit 32 bits then nothing wraps on the way in any of the
      operations. */
  lemma NothingOverflows(a: Rectangle, b: Rectangle, p: Point)
    requires EdgesFit(a) && EdgesFit(b)
    ensures Contains32(a, p) == a.Contains(p)
    ensures ContainsRectangle32(a, b) == a.ContainsRectangle(b)
    ensures Overlaps32(a, b) == a.Overlaps(b)
    ensures IntersectionOf32(a, b) == IntersectionOf(a, b)
  {
    EdgesAreExactIff(a);
    EdgesAreExactIff(b);
    var i := IntersectionOf(a, b);
    IntersectionFits(a, b);
    WrapIsIdentity(i.size.width);
    WrapIsIdentity(i.size.height);
  }
}

/**
 Points, bounding extents and the toolkit rectangle the viewer zooms to
 (`rectFromExtent`).
 */
module Geometry {

  datatype Point = Point(x: real, y: real)

  /** An axis-aligned bounding box, with an empty state distinct from a
      zero-size box at the origin. */
  datatype Extent = Empty | Box(lo: Point, hi: Point) {

    /** A box has its minimum corner below and left of its maximum corner. */
    predicate Valid() {
      Box? ==> lo.x <= hi.x && lo.y <= hi.y
    }

    /** This extent encloses `other` (everything encloses the empty extent). */
    predicate Covers(other: Extent) {
      other.Empty? ||
      (Box? && lo.x <= other.lo.x && lo.y <= other.lo.y && other.hi.x <= hi.x && other.hi.y <= hi.y)
    }

    /** The union of two extents (the drawing model's `expandTo`). */
    function ExpandTo(other: Extent): (r: Extent)
      ensures r.Covers(this) && r.Covers(other)
      ensures Valid() && other.Valid() ==> r.Valid()
      ensures other.Empty? ==> r == this
      ensures Empty? ==> r == other
      ensures r.Empty? <==> Empty? && other.Empty?
    {
      if other.Empty? then this
      else if Empty? then other
      else Box(Point(Min(lo.x, other.lo.x), Min(lo.y, other.lo.y)),
               Point(Max(hi.x, other.hi.x), Max(hi.y, other.hi.y)))
    }
  }

  function Min(a: real, b: real): real { if a <= b then a else b }
  function Max(a: real, b: real): real { if a <= b then b else a }

  /** Any extent enclosing both operands encloses their union: the union is the least one. */
  lemma ExpandToLeast(a: Extent, b: Extent, c: Extent)
    requires c.Covers(a) && c.Covers(b)
    ensures c.Covers(a.ExpandTo(b))
  {
  }

  /** The union does not depend on the order of its operands. */
  lemma ExpandToCommutes(a: Extent, b: Extent)
    ensures a.ExpandTo(b) == b.ExpandTo(a)
  {
  }

  /** The toolkit's floating-point rectangle: origin plus width and height. */
  datatype RectF = RectF(x: real, y: real, w: real, h: real) {
    function Right(): real { x + w }
    function Bottom(): real { y + h }

    /** The toolkit's `isNull`: both sides zero. */
    predicate IsNull() { w == 0.0 && h == 0.0 }

    /** The toolkit's `isValid`: both sides positive; the view refuses to zoom to anything else. */
    predicate IsValid() { w > 0.0 && h > 0.0 }
  }

  /** The default-constructed rectangle. */
  const NullRect := RectF(0.0, 0.0, 0.0, 0.0)

  /** The rectangle spanned by two corners, as the two-point constructor builds it. */
  function RectFromCorners(topLeft: Point, bottomRight: Point): RectF {
    RectF(topLeft.x, topLeft.y, bottomRight.x - topLeft.x, bottomRight.y - topLeft.y)
  }

  /** The rectangle the view is zoomed to for an extent. */
  function RectFromExtent(e: Extent): (r: RectF)
    ensures e.Empty? ==> r == NullRect
    ensures e.Box? ==> r.x == e.lo.x && r.y == e.lo.y && r.Right() == e.hi.x && r.Bottom() == e.hi.y
    ensures e.Valid() ==> r.w >= 0.0 && r.h >= 0.0
  {
    if e.Empty? then NullRect
    else RectFromCorners(e.lo, e.hi)
  }

  /** Reads a rectangle back as the extent between its corners. */
  function ExtentFromRect(r: RectF): Extent {
    Box(Point(r.x, r.y), Point(r.Right(), r.Bottom()))
  }

  /** A non-empty extent survives the trip through a rectangle unchanged. */
  lemma RectRoundTrip(e: Extent)
    requires e.Box?
    ensures ExtentFromRect(RectFromExtent(e)) == e
  {
  }

  /** The rectangle is null exactly for the empty extent and for a box shrunk to one point. */
  lemma RectNullIff(e: Extent)
    ensures RectFromExtent(e).IsNull() <==> e.Empty? || e.lo == e.hi
  {
  }

  /** The view can zoom to the rectangle exactly when the extent has positive width and height. */
  lemma RectValidIff(e: Extent)
    ensures RectFromExtent(e).IsValid() <==> e.Box? && e.lo.x < e.hi.x && e.lo.y < e.hi.y
  {
  }
}

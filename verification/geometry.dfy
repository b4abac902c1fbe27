/** Points, rectangles and the mapping of a face landmark onto the preview's
    screen coordinates.

    The detector reports a face bounding box normalized to the whole image,
    with its origin at the bottom-left corner, and each landmark normalized
    inside that box. The screen has its origin at the top-left corner and is
    measured in points. All arithmetic is exact. */
module Geometry {

  /** A 2-D point: a face-local landmark, an image-normalized point or a
      screen point, depending on where it is used. */
  datatype Point = Point(x: real, y: real)

  /** A rectangle given by its origin and size. */
  datatype Rect = Rect(x: real, y: real, width: real, height: real)

  /** The size of the surface the overlay is drawn on (the preview's bounds). */
  datatype Viewport = Viewport(width: real, height: real)

  /** No factor of the mapping collapses an axis. */
  predicate NonDegenerate(b: Rect, v: Viewport)
  {
    b.width != 0.0 && b.height != 0.0 && v.width != 0.0 && v.height != 0.0
  }

  /** A face box and a viewport of positive extent, as on a running camera. */
  predicate Positive(b: Rect, v: Viewport)
  {
    b.width > 0.0 && b.height > 0.0 && v.width > 0.0 && v.height > 0.0
  }

  /** Maps landmark `p`, normalized inside face box `b`, to screen coordinates
      of viewport `v`: compose into image-normalized space, flip the vertical
      axis, scale by the viewport. Nothing is clamped. */
  function Convert(p: Point, b: Rect, v: Viewport): (r: Point)
    ensures v.width != 0.0 ==> r.x / v.width == b.x + p.x * b.width
    ensures v.height != 0.0 ==> 1.0 - r.y / v.height == b.y + p.y * b.height
  {
    var normalizedX := b.x + p.x * b.width;
    var normalizedY := b.y + p.y * b.height;
    var flippedY := 1.0 - normalizedY;
    var r := Point(normalizedX * v.width, flippedY * v.height);
    ScaleBack(normalizedX, v.width);
    ScaleBack(flippedY, v.height);
    assert v.height != 0.0 ==> r.y / v.height == flippedY;
    r
  }

  /** Scaling by a size and dividing by it again is the identity, unless the
      size is zero. */
  lemma ScaleBack(n: real, size: real)
    ensures size != 0.0 ==> (n * size) / size == n
  {
  }


  /** The second, integer-sized helper the controller carries for the same
      job. Its width and height are whole numbers converted to reals. */
  function LandmarkImagePoint(p: Point, width: int, height: int, b: Rect): (r: Point)
    ensures r == Convert(p, b, Viewport(width as real, height as real))
  {
    var x := b.x + p.x * b.width;
    var y := b.y + p.y * b.height;
    Point(x * (width as real), (1.0 - y) * (height as real))
  }

  /** Maps every landmark of a contour, keeping their order. */
  function ConvertAll(pts: seq<Point>, b: Rect, v: Viewport): seq<Point>
  {
    seq(|pts|, i requires 0 <= i < |pts| => Convert(pts[i], b, v))
  }

  /** The inverse of `Convert`: the face-local landmark that lands on screen
      point `q`. Every screen point, inside the viewport or not, has one. */
  function Unconvert(q: Point, b: Rect, v: Viewport): (p: Point)
    requires NonDegenerate(b, v)
    ensures Convert(p, b, v) == q
  {
    var normalizedX := q.x / v.width;
    var normalizedY := 1.0 - q.y / v.height;
    var p := Point((normalizedX - b.x) / b.width, (normalizedY - b.y) / b.height);
    assert b.x + p.x * b.width == normalizedX;
    assert b.y + p.y * b.height == normalizedY;
    p
  }

  /** The mapping is affine in the landmark: the horizontal scale is the box
      width times the viewport width, and the vertical scale is negative
      (the flip), the box height times the viewport height. */
  lemma ConvertIsAffine(p: Point, b: Rect, v: Viewport)
    ensures Convert(p, b, v).x == (b.width * v.width) * p.x + b.x * v.width
    ensures Convert(p, b, v).y == -(b.height * v.height) * p.y + (1.0 - b.y) * v.height
  {
  }

  /** Going to the screen and back recovers the landmark. */
  lemma ConvertRoundTrip(p: Point, b: Rect, v: Viewport)
    requires NonDegenerate(b, v)
    ensures Unconvert(Convert(p, b, v), b, v) == p
  {
    var q := Convert(p, b, v);
    var normalizedX := b.x + p.x * b.width;
    var normalizedY := b.y + p.y * b.height;
    var flippedY := 1.0 - normalizedY;
    assert q.x == normalizedX * v.width && q.y == flippedY * v.height;
    ScaleBack(normalizedX, v.width);
    ScaleBack(flippedY, v.height);
    assert q.x / v.width == normalizedX;
    assert q.y / v.height == flippedY;
    ScaleBack(p.x, b.width);
    ScaleBack(p.y, b.height);
    assert normalizedX - b.x == p.x * b.width;
    assert normalizedY - b.y == p.y * b.height;
  }

  /** Distinct landmarks land on distinct screen points. */
  lemma ConvertInjective(p1: Point, p2: Point, b: Rect, v: Viewport)
    requires NonDegenerate(b, v)
    ensures Convert(p1, b, v) == Convert(p2, b, v) <==> p1 == p2
  {
    if Convert(p1, b, v) == Convert(p2, b, v) {
      ConvertRoundTrip(p1, b, v);
      ConvertRoundTrip(p2, b, v);
    }
  }

  /** Further right in the face box is further right on screen. */
  lemma ConvertPreservesHorizontalOrder(p1: Point, p2: Point, b: Rect, v: Viewport)
    requires Positive(b, v)
    ensures p1.x < p2.x <==> Convert(p1, b, v).x < Convert(p2, b, v).x
  {
    ConvertIsAffine(p1, b, v);
    ConvertIsAffine(p2, b, v);
    var k := b.width * v.width;
    PositiveProduct(b.width, v.width);
    var d := p2.x - p1.x;
    ScaledDifference(k, p1.x, p2.x, b.x * v.width);
    ProductSign(k, d);
  }

  /** Higher in the face box (detector's upward y) is higher on screen, that
      is, a smaller screen y. */
  lemma ConvertReversesVerticalOrder(p1: Point, p2: Point, b: Rect, v: Viewport)
    requires Positive(b, v)
    ensures p1.y < p2.y <==> Convert(p1, b, v).y > Convert(p2, b, v).y
  {
    ConvertIsAffine(p1, b, v);
    ConvertIsAffine(p2, b, v);
    var k := b.height * v.height;
    PositiveProduct(b.height, v.height);
    var d := p2.y - p1.y;
    var c := (1.0 - b.y) * v.height;
    assert Convert(p1, b, v).y == c - k * p1.y && Convert(p2, b, v).y == c - k * p2.y;
    ScaledDifference(k, p2.y, p1.y, -c);
    assert Convert(p1, b, v).y - Convert(p2, b, v).y == k * d;
    ProductSign(k, d);
  }

  /** Two points on the same line differ by the slope times their distance. */
  lemma ScaledDifference(k: real, a1: real, a2: real, c: real)
    ensures (k * a2 + c) - (k * a1 + c) == k * (a2 - a1)
  {
  }

  /** The product of two positive numbers is positive. */
  lemma PositiveProduct(a: real, c: real)
    requires a > 0.0 && c > 0.0
    ensures a * c > 0.0
  {
  }

  /** With a positive factor, a product has the sign of the other factor. */
  lemma ProductSign(k: real, d: real)
    requires k > 0.0
    ensures k * d > 0.0 <==> d > 0.0
    ensures k * d >= 0.0 <==> d >= 0.0
  {
  }

  /** The bottom-left corner of a centred half-size face box, on a
      1000 x 1000 viewport, lands at (250, 750). */
  lemma ConvertCentredBoxCorner()
    ensures Convert(Point(0.0, 0.0), Rect(0.25, 0.25, 0.5, 0.5), Viewport(1000.0, 1000.0))
            == Point(250.0, 750.0)
  {
  }

  /** Nothing is clamped: a landmark lands inside the viewport exactly when
      its image-normalized position lies inside the image, on each axis. */
  lemma ConvertDoesNotClamp(p: Point, b: Rect, v: Viewport)
    requires v.width > 0.0 && v.height > 0.0
    ensures var r := Convert(p, b, v);
            0.0 <= r.x <= v.width <==> 0.0 <= b.x + p.x * b.width <= 1.0
    ensures var r := Convert(p, b, v);
            0.0 <= r.y <= v.height <==> 0.0 <= b.y + p.y * b.height <= 1.0
  {
    var r := Convert(p, b, v);
    var normalizedX := b.x + p.x * b.width;
    var flippedY := 1.0 - (b.y + p.y * b.height);
    assert r.x == normalizedX * v.width && r.y == flippedY * v.height;
    ScaledWithin(normalizedX, v.width);
    ScaledWithin(flippedY, v.height);
  }

  /** Scaling by a positive size maps the unit interval onto [0, size] and
      nothing else onto it. */
  lemma ScaledWithin(n: real, size: real)
    requires size > 0.0
    ensures 0.0 <= n * size <= size <==> 0.0 <= n <= 1.0
  {
    ProductSign(size, n);
    ProductSign(size, 1.0 - n);
    assert size - n * size == size * (1.0 - n);
  }
}

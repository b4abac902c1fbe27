/** Turning the outer-lip contour into the overlay shape: the split of the
    contour into a top and a bottom arc, the closed polyline built from each
    arc, and the two polylines appended into one shape.

    A path is a sequence of drawing elements, the way a Bezier path records
    them (move, line, close). `Subpaths` reads a path back as closed polygons
    and `Render` writes polygons as a path; the contracts about shapes are
    stated through them. */
module LipContour {
  import opened Wrappers
  import opened Geometry

  /** One recorded drawing step. */
  datatype PathElement = MoveTo(to: Point) | LineTo(to: Point) | ClosePath

  type Path = seq<PathElement>

  /** A line to each point of `qs`, in order. */
  function LineTos(qs: seq<Point>): (r: Path)
    ensures |r| == |qs|
  {
    if |qs| == 0 then [] else [LineTo(qs[0])] + LineTos(qs[1..])
  }

  /** The i-th element of a line run is the line to the i-th point. */
  lemma {:induction false} LineTosAt(qs: seq<Point>)
    ensures forall i :: 0 <= i < |qs| ==> LineTos(qs)[i] == LineTo(qs[i])
    decreases |qs|
  {
    if |qs| > 0 {
      LineTosAt(qs[1..]);
      forall i | 0 <= i < |qs|
        ensures LineTos(qs)[i] == LineTo(qs[i])
      {
        if i > 0 {
          assert LineTos(qs)[i] == LineTos(qs[1..])[i - 1];
        }
      }
    }
  }

  /** The closed polygon through `pts`: a move to the first point, a line to
      each later one, a close. No points, no elements. */
  function ClosedPolyline(pts: seq<Point>): Path
  {
    if |pts| == 0 then [] else [MoveTo(pts[0])] + LineTos(pts[1..]) + [ClosePath]
  }

  /** Polygons written one after another as closed subpaths of one path. */
  function Render(polys: seq<seq<Point>>): Path
  {
    if |polys| == 0 then [] else ClosedPolyline(polys[0]) + Render(polys[1..])
  }

  /** The lines of one subpath and whatever follows its close. */
  datatype LineRun = LineRun(lines: seq<Point>, rest: Path)

  /** Reads a run of lines ended by a close from the front of `tail`. */
  function ClosedRun(tail: Path): (r: Option<LineRun>)
    ensures r.Some? ==> tail == LineTos(r.value.lines) + [ClosePath] + r.value.rest
    ensures r.Some? ==> |r.value.rest| < |tail|
  {
    if |tail| == 0 then None
    else match tail[0]
      case ClosePath => Some(LineRun([], tail[1..]))
      case MoveTo(_) => None
      case LineTo(q) =>
        match ClosedRun(tail[1..])
        case None => None
        case Some(run) => Some(LineRun([q] + run.lines, run.rest))
  }

  /** Reads a path back as closed polygons. Fails (None) unless the path is
      a sequence of subpaths each made of a move, lines and a close. */
  function Subpaths(path: Path): (r: Option<seq<seq<Point>>>)
    ensures r.Some? ==> Render(r.value) == path
    ensures r.Some? ==> forall k :: 0 <= k < |r.value| ==> |r.value[k]| > 0
    decreases |path|
  {
    if |path| == 0 then Some([])
    else match path[0]
      case MoveTo(p) =>
        (match ClosedRun(path[1..])
         case None => None
         case Some(run) =>
           match Subpaths(run.rest)
           case None => None
           case Some(polys) =>
             SubpathStep(path, p, run, polys);
             Some([[p] + run.lines] + polys))
      case _ => None
  }

  /** Writing a polygon in front of others puts its closed polyline first. */
  lemma RenderCons(poly: seq<Point>, polys: seq<seq<Point>>)
    ensures Render([poly] + polys) == ClosedPolyline(poly) + Render(polys)
  {
    assert ([poly] + polys)[1..] == polys;
  }

  /** One polygon is written as its closed polyline. */
  lemma RenderSingle(poly: seq<Point>)
    ensures Render([poly]) == ClosedPolyline(poly)
  {
    assert [poly][1..] == [];
    assert Render([poly][1..]) == [];
    assert ClosedPolyline(poly) + [] == ClosedPolyline(poly);
  }

  /** The step `Subpaths` takes: a move, a closed run, and the polygons after it. */
  lemma SubpathStep(path: Path, p: Point, run: LineRun, polys: seq<seq<Point>>)
    requires |path| > 0 && path[0] == MoveTo(p)
    requires path[1..] == LineTos(run.lines) + [ClosePath] + run.rest
    requires Render(polys) == run.rest
    ensures Render([[p] + run.lines] + polys) == path
  {
    var poly := [p] + run.lines;
    ClosedPolylineCons(p, run.lines);
    RenderCons(poly, polys);
    SplitFirst(path);
    ConcatAssoc([MoveTo(p)], LineTos(run.lines), [ClosePath], run.rest);
  }

  /** The closed polyline through `[p] + qs` is a move to `p`, lines to `qs`
      and a close. */
  lemma ClosedPolylineCons(p: Point, qs: seq<Point>)
    ensures ClosedPolyline([p] + qs) == [MoveTo(p)] + LineTos(qs) + [ClosePath]
  {
    assert ([p] + qs)[0] == p;
    assert ([p] + qs)[1..] == qs;
  }

  /** A non-empty sequence is its first element followed by the rest. */
  lemma SplitFirst<T>(s: seq<T>)
    requires |s| > 0
    ensures s == [s[0]] + s[1..]
  {
  }

  /** Regrouping a four-part concatenation. */
  lemma ConcatAssoc<T>(a: seq<T>, b: seq<T>, c: seq<T>, d: seq<T>)
    ensures a + b + c + d == a + (b + c + d)
  {
  }

  /** A line run followed by a close reads back as that run. */
  lemma {:induction false} ClosedRunOfLines(qs: seq<Point>, rest: Path)
    ensures ClosedRun(LineTos(qs) + [ClosePath] + rest) == Some(LineRun(qs, rest))
    decreases |qs|
  {
    var tail := LineTos(qs) + [ClosePath] + rest;
    if |qs| == 0 {
      assert tail[1..] == rest;
    } else {
      assert tail[1..] == LineTos(qs[1..]) + [ClosePath] + rest;
      ClosedRunOfLines(qs[1..], rest);
      assert [qs[0]] + qs[1..] == qs;
    }
  }

  /** Writing non-empty polygons and reading them back gives them back. */
  lemma {:induction false} SubpathsOfRender(polys: seq<seq<Point>>)
    requires forall k :: 0 <= k < |polys| ==> |polys[k]| > 0
    ensures Subpaths(Render(polys)) == Some(polys)
    decreases |polys|
  {
    if |polys| > 0 {
      var pts := polys[0];
      var rest := Render(polys[1..]);
      var path := Render(polys);
      SplitFirst(pts);
      ClosedPolylineCons(pts[0], pts[1..]);
      var tail := LineTos(pts[1..]) + [ClosePath] + rest;
      ConcatAssoc([MoveTo(pts[0])], LineTos(pts[1..]), [ClosePath], rest);
      assert path == [MoveTo(pts[0])] + tail;
      assert path[0] == MoveTo(pts[0]) && path[1..] == tail;
      ClosedRunOfLines(pts[1..], rest);
      SubpathsOfRender(polys[1..]);
      SplitFirst(polys);
    }
  }

  /** A closed polyline through at least one point is exactly one closed
      polygon with those points. */
  lemma ClosedPolylineIsOneSubpath(pts: seq<Point>)
    requires |pts| > 0
    ensures Subpaths(ClosedPolyline(pts)) == Some([pts])
  {
    RenderSingle(pts);
    SubpathsOfRender([pts]);
  }

  /** Appending one more point to a line run appends one line. */
  lemma LineTosSnoc(qs: seq<Point>, q: Point)
    ensures LineTos(qs + [q]) == LineTos(qs) + [LineTo(q)]
  {
    var a := LineTos(qs + [q]);
    var b := LineTos(qs) + [LineTo(q)];
    LineTosAt(qs + [q]);
    LineTosAt(qs);
    assert |a| == |b|;
    forall i | 0 <= i < |a|
      ensures a[i] == b[i]
    {
      if i < |qs| {
        assert (qs + [q])[i] == qs[i];
      }
    }
  }

  /** The lip-path helper as the controller writes it: map every point to
      the screen, move to the first, line to each of the rest, close. An
      empty input gives an empty path. */
  method CreateLipPath(points: seq<Point>, b: Rect, v: Viewport) returns (path: Path)
    ensures |points| == 0 ==> path == []
    ensures |points| > 0 ==> |path| == |points| + 1
    ensures |points| > 0 ==> path[0] == MoveTo(Convert(points[0], b, v))
    ensures forall i :: 1 <= i < |points| ==> path[i] == LineTo(Convert(points[i], b, v))
    ensures |points| > 0 ==> path[|points|] == ClosePath
    ensures path == ClosedPolyline(ConvertAll(points, b, v))
  {
    path := [];
    var converted := ConvertAll(points, b, v);
    if |converted| == 0 {
      return;
    }
    path := path + [MoveTo(converted[0])];
    var i := 1;
    while i < |converted|
      invariant 1 <= i <= |converted|
      invariant path == [MoveTo(converted[0])] + LineTos(converted[1..i])
    {
      LineTosSnoc(converted[1..i], converted[i]);
      assert converted[1..i + 1] == converted[1..i] + [converted[i]];
      path := path + [LineTo(converted[i])];
      i := i + 1;
    }
    assert converted[1..i] == converted[1..];
    path := path + [ClosePath];
    LineTosAt(converted[1..]);
  }

  /** The two arcs of the outer-lip contour. */
  datatype LipHalves = LipHalves(top: seq<Point>, bottom: seq<Point>)

  /** Splits the contour at `half = count / 2`: the top arc runs from the
      first point through the midpoint inclusive, the bottom arc from the
      midpoint to the last point. The midpoint belongs to both. */
  function SplitOuterLips(pts: seq<Point>): (r: LipHalves)
    requires |pts| > 0
    ensures |r.top| == |pts| / 2 + 1
    ensures |r.bottom| == |pts| - |pts| / 2
    ensures r.top[|r.top| - 1] == r.bottom[0]
    ensures r.top + r.bottom[1..] == pts
  {
    var half := |pts| / 2;
    var r := LipHalves(pts[..half + 1], pts[half..]);
    assert r.top + r.bottom[1..] == pts[..half + 1] + pts[half + 1..];
    r
  }

  /** On a contour long enough to pass the drawing gate, both arcs have at
      least six points and together they hold one point more than the
      contour. */
  lemma SplitPointCount(pts: seq<Point>)
    requires |pts| > 10
    ensures |SplitOuterLips(pts).top| >= 6 && |SplitOuterLips(pts).bottom| >= 6
    ensures |SplitOuterLips(pts).top| + |SplitOuterLips(pts).bottom| == |pts| + 1
  {
  }

  /** A 20-point contour splits into an 11-point top arc and a 10-point
      bottom arc. */
  lemma SplitTwentyPoints(pts: seq<Point>)
    requires |pts| == 20
    ensures |SplitOuterLips(pts).top| == 11 && |SplitOuterLips(pts).bottom| == 10
  {
  }

  /** Mapping commutes with taking a slice of the contour. */
  lemma ConvertAllSlice(pts: seq<Point>, lo: int, hi: int, b: Rect, v: Viewport)
    requires 0 <= lo <= hi <= |pts|
    ensures ConvertAll(pts[lo..hi], b, v) == ConvertAll(pts, b, v)[lo..hi]
  {
  }

  /** The overlay shape for an outer-lip contour: the closed top arc and
      the closed bottom arc, appended in that order, in screen coordinates. */
  function LipShape(pts: seq<Point>, b: Rect, v: Viewport): (r: Path)
    requires |pts| > 0
    ensures |r| == |pts| + 3
    ensures r[0] == MoveTo(Convert(pts[0], b, v))
    ensures r[|pts| / 2 + 1] == ClosePath
    ensures r[|pts| / 2 + 2] == MoveTo(Convert(pts[|pts| / 2], b, v))
    ensures r[|r| - 1] == ClosePath
  {
    var halves := SplitOuterLips(pts);
    var top := ClosedPolyline(ConvertAll(halves.top, b, v));
    var bottom := ClosedPolyline(ConvertAll(halves.bottom, b, v));
    assert |top| == |pts| / 2 + 2 && |bottom| == |pts| - |pts| / 2 + 1;
    assert halves.bottom[0] == pts[|pts| / 2];
    top + bottom
  }

  /** The mapped arcs hold one vertex more than the contour, and rejoin,
      over the shared midpoint, into the whole contour mapped in order. */
  lemma MappedHalvesJoin(pts: seq<Point>, b: Rect, v: Viewport)
    requires |pts| > 0
    ensures var halves := SplitOuterLips(pts);
            |ConvertAll(halves.top, b, v)| + |ConvertAll(halves.bottom, b, v)| == |pts| + 1
    ensures var halves := SplitOuterLips(pts);
            ConvertAll(halves.top, b, v) + ConvertAll(halves.bottom, b, v)[1..]
              == ConvertAll(pts, b, v)
  {
    var halves := SplitOuterLips(pts);
    var half := |pts| / 2;
    var all := ConvertAll(pts, b, v);
    assert halves.top == pts[..half + 1];
    assert halves.bottom == pts[half..];
    ConvertAllSlice(pts, 0, half + 1, b, v);
    ConvertAllSlice(pts, half, |pts|, b, v);
    var top := ConvertAll(halves.top, b, v);
    var bottom := ConvertAll(halves.bottom, b, v);
    assert top == all[..half + 1];
    assert bottom[1..] == all[half + 1..];
    assert all[..half + 1] + all[half + 1..] == all;
  }

  /** The lip shape is exactly two closed polygons: the screen images of the
      top arc and then of the bottom arc. */
  lemma LipShapeSubpaths(pts: seq<Point>, b: Rect, v: Viewport)
    requires |pts| > 0
    ensures var halves := SplitOuterLips(pts);
            Subpaths(LipShape(pts, b, v))
              == Some([ConvertAll(halves.top, b, v), ConvertAll(halves.bottom, b, v)])
  {
    var halves := SplitOuterLips(pts);
    var top := ConvertAll(halves.top, b, v);
    var bottom := ConvertAll(halves.bottom, b, v);
    var polys := [top, bottom];
    RenderSingle(bottom);
    RenderCons(top, [bottom]);
    assert [top] + [bottom] == polys;
    SubpathsOfRender(polys);
  }
}

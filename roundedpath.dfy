/** The rounded-rectangle path that both renderers build on a canvas: a move to
    the end of the top-left curve, then for each corner in clockwise order a
    straight edge and a quadratic curve whose control point is the canvas
    corner.  No radius is clamped to the canvas size. */
module RoundedPath {
  import opened Js
  import opened Canvas2D

  datatype Point = Point(x: Num, y: Num)

  /** The four corner radii, top-left first and clockwise. */
  datatype Radii = Radii(topLeft: Num, topRight: Num, bottomRight: Num, bottomLeft: Num)

  function Uniform(r: Num): (rs: Radii)
  {
    Radii(r, r, r, r)
  }

  /** The eight points where the straight edges meet the corner curves,
      clockwise from the end of the top-left curve. */
  function EdgePoints(w: Num, h: Num, r: Radii): (pts: seq<Point>)
    ensures |pts| == 8
  {
    [ Point(r.topLeft, Int(0)), Point(Sub(w, r.topRight), Int(0)),
      Point(w, r.topRight), Point(w, Sub(h, r.bottomRight)),
      Point(Sub(w, r.bottomRight), h), Point(r.bottomLeft, h),
      Point(Int(0), Sub(h, r.bottomLeft)), Point(Int(0), r.topLeft) ]
  }

  /** The four canvas corners, clockwise from the top right. */
  function Corners(w: Num, h: Num): seq<Point> {
    [Point(w, Int(0)), Point(w, h), Point(Int(0), h), Point(Int(0), Int(0))]
  }

  /** One corner: a straight edge to `edge`, then a curve bending at `corner`
      and ending at `next`. */
  function Corner(edge: Point, corner: Point, next: Point): seq<DrawCmd> {
    [LineTo(edge.x, edge.y), QuadTo(corner.x, corner.y, next.x, next.y)]
  }

  /** `beginPath`, a move to the first edge point, the four corners clockwise
      from the top right, and `closePath`. */
  function RoundedRectPath(w: Num, h: Num, r: Radii): (cmds: seq<DrawCmd>)
    ensures |cmds| == 11 && cmds[0] == BeginPath && cmds[10] == ClosePath
    ensures cmds[1] == MoveTo(r.topLeft, Int(0))
  {
    PathThrough(EdgePoints(w, h, r), Corners(w, h))
  }

  /** The closed path through eight edge points `p` whose curves bend at `c`. */
  function PathThrough(p: seq<Point>, c: seq<Point>): (cmds: seq<DrawCmd>)
    requires |p| == 8 && |c| == 4
    ensures |cmds| == 11 && cmds[0] == BeginPath && cmds[10] == ClosePath
    ensures cmds[1] == MoveTo(p[0].x, p[0].y)
  {
    [BeginPath, MoveTo(p[0].x, p[0].y)]
      + Corner(p[1], c[0], p[2]) + Corner(p[3], c[1], p[4])
      + Corner(p[5], c[2], p[6]) + Corner(p[7], c[3], p[0])
      + [ClosePath]
  }

  /** The point a path command moves the pen to; other commands have none. */
  function EndPoint(c: DrawCmd): seq<Point> {
    match c
    case MoveTo(x, y) => [Point(x, y)]
    case LineTo(x, y) => [Point(x, y)]
    case QuadTo(_, _, x, y) => [Point(x, y)]
    case ArcTo(_, _, x2, y2, _) => [Point(x2, y2)]
    case _ => []
  }

  /** The control points of the quadratic curves, in order. */
  function ControlPoint(c: DrawCmd): seq<Point> {
    match c
    case QuadTo(cx, cy, _, _) => [Point(cx, cy)]
    case _ => []
  }

  /** The pen positions a command list visits, in order. */
  function Vertices(cmds: seq<DrawCmd>): seq<Point>
    decreases |cmds|
  {
    if cmds == [] then [] else EndPoint(cmds[0]) + Vertices(cmds[1..])
  }

  function Controls(cmds: seq<DrawCmd>): seq<Point>
    decreases |cmds|
  {
    if cmds == [] then [] else ControlPoint(cmds[0]) + Controls(cmds[1..])
  }

  lemma VerticesAppend(a: seq<DrawCmd>, b: seq<DrawCmd>)
    ensures Vertices(a + b) == Vertices(a) + Vertices(b)
    ensures Controls(a + b) == Controls(a) + Controls(b)
  {
    EndPointsAppend(a, b);
    ControlPointsAppend(a, b);
  }

  lemma {:induction false} EndPointsAppend(a: seq<DrawCmd>, b: seq<DrawCmd>)
    ensures Vertices(a + b) == Vertices(a) + Vertices(b)
    decreases |a|
  {
    if a == [] {
      assert a + b == b;
    } else {
      assert (a + b)[0] == a[0] && (a + b)[1..] == a[1..] + b;
      EndPointsAppend(a[1..], b);
    }
  }

  lemma {:induction false} ControlPointsAppend(a: seq<DrawCmd>, b: seq<DrawCmd>)
    ensures Controls(a + b) == Controls(a) + Controls(b)
    decreases |a|
  {
    if a == [] {
      assert a + b == b;
    } else {
      assert (a + b)[0] == a[0] && (a + b)[1..] == a[1..] + b;
      ControlPointsAppend(a[1..], b);
    }
  }

  lemma CornerPoints(edge: Point, corner: Point, next: Point)
    ensures Vertices(Corner(edge, corner, next)) == [edge, next]
    ensures Controls(Corner(edge, corner, next)) == [corner]
  {
    var cs := Corner(edge, corner, next);
    Pair(cs[0], cs[1]);
    assert cs == [cs[0], cs[1]];
  }

  /** The two point lists of a two-command list, one command at a time. */
  lemma Pair(a: DrawCmd, b: DrawCmd)
    ensures Vertices([a, b]) == EndPoint(a) + EndPoint(b)
    ensures Controls([a, b]) == ControlPoint(a) + ControlPoint(b)
  {
    var s := [a, b];
    assert s[1..] == [b];
    assert [b][1..] == [];
    assert Vertices([b]) == EndPoint(b);
    assert Controls([b]) == ControlPoint(b);
  }

  /** The path starts at the first edge point, visits the eight edge points
      clockwise and comes back to its start; each curve bends at a canvas corner,
      clockwise from the top right. */
  lemma RoundedRectVertices(w: Num, h: Num, r: Radii)
    ensures Vertices(RoundedRectPath(w, h, r)) == EdgePoints(w, h, r) + [EdgePoints(w, h, r)[0]]
    ensures Controls(RoundedRectPath(w, h, r)) == Corners(w, h)
  {
    PathThroughPoints(EdgePoints(w, h, r), Corners(w, h));
  }

  lemma PathThroughPoints(p: seq<Point>, c: seq<Point>)
    requires |p| == 8 && |c| == 4
    ensures Vertices(PathThrough(p, c)) == p + [p[0]]
    ensures Controls(PathThrough(p, c)) == c
  {
    var head: seq<DrawCmd> := [BeginPath, MoveTo(p[0].x, p[0].y)];
    var body := Corner(p[1], c[0], p[2]) + Corner(p[3], c[1], p[4])
      + Corner(p[5], c[2], p[6]) + Corner(p[7], c[3], p[0]);
    assert PathThrough(p, c) == head + body + [ClosePath];
    StartPoint(p[0]);
    CornersPoints(p, c);
    Closing();
    JoinThree(head, body, [ClosePath]);
    Closed(p);
    Unwrapped(c);
  }

  lemma Closed<T>(p: seq<T>)
    requires |p| > 0
    ensures p + [p[0]] == [p[0]] + (p[1..] + [p[0]]) + []
  {
    assert p == [p[0]] + p[1..];
  }

  lemma Unwrapped<T>(c: seq<T>)
    ensures c == [] + c + []
  {
  }

  lemma StartPoint(pt: Point)
    ensures Vertices([BeginPath, MoveTo(pt.x, pt.y)]) == [pt]
    ensures Controls([BeginPath, MoveTo(pt.x, pt.y)]) == []
  {
    Pair(BeginPath, MoveTo(pt.x, pt.y));
  }

  lemma JoinThree(a: seq<DrawCmd>, b: seq<DrawCmd>, c: seq<DrawCmd>)
    ensures Vertices(a + b + c) == Vertices(a) + Vertices(b) + Vertices(c)
    ensures Controls(a + b + c) == Controls(a) + Controls(b) + Controls(c)
  {
    VerticesAppend(a, b);
    VerticesAppend(a + b, c);
  }

  lemma Closing()
    ensures Vertices([ClosePath]) == [] && Controls([ClosePath]) == []
  {
    assert [ClosePath][1..] == [];
  }

  /** The four corners visit the edge points after the first, then the first again. */
  lemma CornersPoints(p: seq<Point>, c: seq<Point>)
    requires |p| == 8 && |c| == 4
    ensures Vertices(Corner(p[1], c[0], p[2]) + Corner(p[3], c[1], p[4])
      + Corner(p[5], c[2], p[6]) + Corner(p[7], c[3], p[0])) == p[1..] + [p[0]]
    ensures Controls(Corner(p[1], c[0], p[2]) + Corner(p[3], c[1], p[4])
      + Corner(p[5], c[2], p[6]) + Corner(p[7], c[3], p[0])) == c
  {
    var a := Corner(p[1], c[0], p[2]) + Corner(p[3], c[1], p[4]);
    var b := Corner(p[5], c[2], p[6]) + Corner(p[7], c[3], p[0]);
    TwoCorners(p[1], c[0], p[2], p[3], c[1], p[4]);
    TwoCorners(p[5], c[2], p[6], p[7], c[3], p[0]);
    VerticesAppend(a, b);
    assert a + b == Corner(p[1], c[0], p[2]) + Corner(p[3], c[1], p[4])
      + Corner(p[5], c[2], p[6]) + Corner(p[7], c[3], p[0]);
    assert p[1..] + [p[0]] == [p[1], p[2], p[3], p[4]] + [p[5], p[6], p[7], p[0]];
    assert c == [c[0], c[1]] + [c[2], c[3]];
  }

  lemma TwoCorners(e1: Point, k1: Point, n1: Point, e2: Point, k2: Point, n2: Point)
    ensures Vertices(Corner(e1, k1, n1) + Corner(e2, k2, n2)) == [e1, n1, e2, n2]
    ensures Controls(Corner(e1, k1, n1) + Corner(e2, k2, n2)) == [k1, k2]
  {
    CornerPoints(e1, k1, n1);
    CornerPoints(e2, k2, n2);
    VerticesAppend(Corner(e1, k1, n1), Corner(e2, k2, n2));
  }

  /** With every radius 0 the edge points are the canvas corners, each twice:
      the path is the canvas rectangle. */
  lemma ZeroRadiiIsRectangle(w: real, h: real)
    ensures EdgePoints(Fin(w), Fin(h), Uniform(Int(0))) ==
      [ Point(Int(0), Int(0)), Point(Fin(w), Int(0)), Point(Fin(w), Int(0)), Point(Fin(w), Fin(h)),
        Point(Fin(w), Fin(h)), Point(Int(0), Fin(h)), Point(Int(0), Fin(h)), Point(Int(0), Int(0)) ]
  {
    var zero := Int(0);
    assert zero == Fin(0.0);
    assert EdgePoints(Fin(w), Fin(h), Uniform(zero)) == EdgePoints(Fin(w), Fin(h), Uniform(Fin(0.0)));
  }

  /** A point of the canvas border: inside the canvas and on one of its edges. */
  predicate OnBorder(pt: Point, w: real, h: real) {
    pt.x.Fin? && pt.y.Fin? && 0.0 <= pt.x.v <= w && 0.0 <= pt.y.v <= h &&
    (pt.x.v == 0.0 || pt.x.v == w || pt.y.v == 0.0 || pt.y.v == h)
  }

  predicate Fits(r: Num, w: real, h: real) {
    r.Fin? && 0.0 <= r.v <= w && r.v <= h
  }

  /** When no radius is negative or larger than a side of the canvas, every
      point the path passes through lies on the canvas border. */
  lemma EdgePointsOnBorder(w: real, h: real, r: Radii)
    requires Fits(r.topLeft, w, h) && Fits(r.topRight, w, h)
    requires Fits(r.bottomRight, w, h) && Fits(r.bottomLeft, w, h)
    ensures forall i :: 0 <= i < 8 ==> OnBorder(EdgePoints(Fin(w), Fin(h), r)[i], w, h)
  {
  }
}

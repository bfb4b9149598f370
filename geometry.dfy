/** Quad geometry (lib/proto/utils.go:203-246): a DOMQuad is a flat list of
    coordinates read in pairs as the vertices of a polygon; Len counts the
    vertices, Each visits them in order, Center averages them, and
    OnePointInside takes the center of the first quad of a content-quads
    result. Coordinates are exact reals rather than float64 values. */
module Geometry {
  import opened Wrappers

  /** A point measured from the origin (0, 0). */
  datatype Point = Point(X: real, Y: real)

  /** A flat list of coordinates, `x0, y0, x1, y1, ...`. */
  type DOMQuad = seq<real>

  /** The number of vertices: the coordinates are read in pairs, so a trailing
      unpaired coordinate is ignored. */
  function Len(q: DOMQuad): (n: nat)
    ensures 2 * n <= |q| < 2 * n + 2
  {
    |q| / 2
  }

  /** The vertices of a quad, taken two coordinates at a time from the front. */
  function Vertices(q: DOMQuad): (pts: seq<Point>)
    ensures |pts| == Len(q)
    ensures forall i :: 0 <= i < |pts| ==> pts[i] == Point(q[2 * i], q[2 * i + 1])
    decreases |q|
  {
    if |q| < 2 then [] else [Point(q[0], q[1])] + Vertices(q[2..])
  }

  /** One call of the callback handed to Each: a vertex and its index. */
  datatype Visit = Visit(pt: Point, i: nat)

  /** Calls the callback once per vertex, in order of increasing index; the
      calls are returned as the sequence of their arguments. */
  method Each(q: DOMQuad) returns (visits: seq<Visit>)
    ensures |visits| == Len(q)
    ensures forall i :: 0 <= i < |visits| ==> visits[i] == Visit(Point(q[2 * i], q[2 * i + 1]), i)
  {
    visits := [];
    var i := 0;
    while i < Len(q)
      invariant 0 <= i <= Len(q) && |visits| == i
      invariant forall k :: 0 <= k < i ==> visits[k] == Visit(Point(q[2 * k], q[2 * k + 1]), k)
    {
      visits := visits + [Visit(Point(q[i * 2], q[i * 2 + 1]), i)];
      i := i + 1;
    }
  }

  /** The componentwise sum of a list of points, added from the front. */
  function Sum(pts: seq<Point>): Point
    decreases |pts|
  {
    if pts == [] then Point(0.0, 0.0)
    else
      var s := Sum(pts[..|pts| - 1]);
      Point(s.X + pts[|pts| - 1].X, s.Y + pts[|pts| - 1].Y)
  }

  /** The mean of the vertices of a quad that has at least one. */
  function CenterOf(q: DOMQuad): Point
    requires Len(q) > 0
  {
    var s := Sum(Vertices(q));
    Point(s.X / Len(q) as real, s.Y / Len(q) as real)
  }

  /** The center of the polygon: the callback of Each accumulates the sums of
      the x and of the y coordinates, which are then divided by the number of
      vertices. For a quad without vertices the source divides zero by zero,
      which gives NaN coordinates in float64 and has no counterpart here. */
  method Center(q: DOMQuad) returns (c: Point)
    requires Len(q) > 0
    ensures c == CenterOf(q)
  {
    var visits := Each(q);
    ghost var pts := Vertices(q);
    var x, y := 0.0, 0.0;
    for k := 0 to |visits|
      invariant Point(x, y) == Sum(pts[..k])
    {
      assert pts[..k + 1][..k] == pts[..k];
      x := x + visits[k].pt.X;
      y := y + visits[k].pt.Y;
    }
    assert pts[..|visits|] == pts;
    c := Point(x / Len(q) as real, y / Len(q) as real);
  }

  /** An axis-aligned box, corners included. */
  datatype Box = Box(lo: Point, hi: Point)

  predicate Within(p: Point, b: Box) {
    b.lo.X <= p.X <= b.hi.X && b.lo.Y <= p.Y <= b.hi.Y
  }

  /** `n` copies of `v` added up. */
  function Scaled(n: nat, v: real): real {
    if n == 0 then 0.0 else Scaled(n - 1, v) + v
  }

  /** Adding up `n` copies is multiplying by `n`. */
  lemma {:induction false} ScaledIsProduct(n: nat, v: real)
    ensures Scaled(n, v) == n as real * v
  {
    if n > 0 {
      ScaledIsProduct(n - 1, v);
      ScaleStep((n - 1) as real, v);
    }
  }

  /** Scaling by one more adds one more copy. */
  lemma ScaleStep(m: real, v: real)
    ensures (m + 1.0) * v == m * v + v
  {
  }

  /** The sum of `n` points inside a box lies between `n` copies of its
      lower corner and `n` copies of its upper corner. */
  lemma {:induction false} SumWithin(pts: seq<Point>, b: Box)
    requires forall i :: 0 <= i < |pts| ==> Within(pts[i], b)
    ensures var s, n := Sum(pts), |pts|;
            && Scaled(n, b.lo.X) <= s.X <= Scaled(n, b.hi.X)
            && Scaled(n, b.lo.Y) <= s.Y <= Scaled(n, b.hi.Y)
    decreases |pts|
  {
    if pts != [] {
      var init := pts[..|pts| - 1];
      assert Within(pts[|pts| - 1], b);
      SumWithin(init, b);
    }
  }

  /** A value between `n * lo` and `n * hi`, divided by `n`, lies between `lo`
      and `hi`. */
  lemma MeanBetween(s: real, n: real, lo: real, hi: real)
    requires n > 0.0 && n * lo <= s <= n * hi
    ensures lo <= s / n <= hi
  {
  }

  /** A total between `n` copies of `lo` and `n` copies of `hi`, divided by
      `n`, lies between `lo` and `hi`. */
  lemma MeanWithin(s: real, n: nat, lo: real, hi: real)
    requires n > 0 && Scaled(n, lo) <= s <= Scaled(n, hi)
    ensures lo <= s / n as real <= hi
  {
    ScaledIsProduct(n, lo);
    ScaledIsProduct(n, hi);
    MeanBetween(s, n as real, lo, hi);
  }

  /** The center of a quad lies in every box that holds all its vertices: it
      is within the quad's bounding box. */
  lemma CenterWithin(q: DOMQuad, b: Box)
    requires Len(q) > 0
    requires forall i :: 0 <= i < Len(q) ==> Within(Point(q[2 * i], q[2 * i + 1]), b)
    ensures Within(CenterOf(q), b)
  {
    var pts := Vertices(q);
    SumWithin(pts, b);
    var s := Sum(pts);
    MeanWithin(s.X, Len(q), b.lo.X, b.hi.X);
    MeanWithin(s.Y, Len(q), b.lo.Y, b.hi.Y);
  }

  /** The unit square scaled by two has four vertices and its center at
      (1, 1). */
  lemma SquareExample()
    ensures var q := [0.0, 0.0, 2.0, 0.0, 2.0, 2.0, 0.0, 2.0];
            Len(q) == 4 && CenterOf(q) == Point(1.0, 1.0)
  {
    var q := [0.0, 0.0, 2.0, 0.0, 2.0, 2.0, 0.0, 2.0];
    var pts := Vertices(q);
    assert |pts| == 4;
    assert pts[0] == Point(0.0, 0.0) && pts[1] == Point(2.0, 0.0);
    assert pts[2] == Point(2.0, 2.0) && pts[3] == Point(0.0, 2.0);
    assert pts == [Point(0.0, 0.0), Point(2.0, 0.0), Point(2.0, 2.0), Point(0.0, 2.0)];
    assert pts[..3][..2][..1][..0] == [];
    assert Sum(pts[..3][..2][..1]) == Point(0.0, 0.0);
    assert Sum(pts[..3][..2]) == Point(2.0, 0.0);
    assert Sum(pts[..3]) == Point(4.0, 2.0);
    assert Sum(pts) == Point(4.0, 4.0);
  }

  /** The result of DOM.getContentQuads: the quads an element occupies, for
      example one per line of wrapped text. */
  datatype DOMGetContentQuadsResult = DOMGetContentQuadsResult(Quads: seq<DOMQuad>)

  /** A point to interact with: no point when there are no quads, otherwise
      the center of the first quad only. */
  function OnePointInside(res: DOMGetContentQuadsResult): (p: Option<Point>)
    requires |res.Quads| > 0 ==> Len(res.Quads[0]) > 0
    ensures p.None? <==> |res.Quads| == 0
    ensures p.Some? ==> p.value == CenterOf(res.Quads[0])
  {
    if |res.Quads| == 0 then None else Some(CenterOf(res.Quads[0]))
  }

  /** The point chosen lies in every box that holds the first quad. */
  lemma OnePointInsideWithin(res: DOMGetContentQuadsResult, b: Box)
    requires |res.Quads| > 0 && Len(res.Quads[0]) > 0
    requires forall i :: 0 <= i < Len(res.Quads[0]) ==>
               Within(Point(res.Quads[0][2 * i], res.Quads[0][2 * i + 1]), b)
    ensures OnePointInside(res).Some? && Within(OnePointInside(res).value, b)
  {
    CenterWithin(res.Quads[0], b);
  }

  /** A touch point of an input event; the source moves it in place. */
  class InputTouchPoint {
    var X: real
    var Y: real
    var RadiusX: real
    var RadiusY: real
    var RotationAngle: real
    var Force: real
    var ID: real

    /** A touch point at (x, y) with every other field at its zero value. */
    constructor (x: real, y: real)
      ensures X == x && Y == y
      ensures RadiusX == 0.0 && RadiusY == 0.0 && RotationAngle == 0.0 && Force == 0.0 && ID == 0.0
    {
      X, Y := x, y;
      RadiusX, RadiusY, RotationAngle, Force, ID := 0.0, 0.0, 0.0, 0.0, 0.0;
    }

    /** Moves the point to (x, y); the frame leaves every other field as it was. */
    method MoveTo(x: real, y: real)
      modifies this`X, this`Y
      ensures X == x && Y == y
    {
      X := x;
      Y := y;
    }
  }
}

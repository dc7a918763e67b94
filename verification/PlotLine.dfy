/** Drawing a data series as a line: each pair of neighbouring points is clipped to the axes
and stroked, and the pen is moved only where it is not already. */
module PlotLine {
  import opened Wrappers
  import opened Clip

  // ----- Canvas -----

  /** How the axes and the offset place data points on the canvas; canvas y runs downwards. */
  datatype Frame = Frame(xs: Axis, ys: Axis, xoffset: real, yoffset: real)

  function XToCanvas(axis: Axis, p: real): real {
    (p - axis.min) * axis.scale
  }

  function YToCanvas(axis: Axis, p: real): real {
    (axis.max - p) * axis.scale
  }

  function XFromCanvas(axis: Axis, c: real): real
    requires axis.scale != 0.0
  {
    axis.min + c / axis.scale
  }

  function YFromCanvas(axis: Axis, c: real): real
    requires axis.scale != 0.0
  {
    axis.max - c / axis.scale
  }

  function Place(f: Frame, p: Point): Point {
    Point(XToCanvas(f.xs, p.x) + f.xoffset, YToCanvas(f.ys, p.y) + f.yoffset)
  }

  function PlaceSegment(f: Frame, s: Segment): Segment {
    Segment(Place(f, s.a), Place(f, s.b))
  }

  /** Going to the canvas and back is the identity on both axes, in either order. */
  lemma CanvasRoundTrip(axis: Axis, p: real)
    requires axis.scale != 0.0
    ensures XFromCanvas(axis, XToCanvas(axis, p)) == p && XToCanvas(axis, XFromCanvas(axis, p)) == p
    ensures YFromCanvas(axis, YToCanvas(axis, p)) == p && YToCanvas(axis, YFromCanvas(axis, p)) == p
  {
    Quotient(p, axis.scale);
    Cancel(p - axis.min, axis.scale);
    Cancel(axis.max - p, axis.scale);
  }

  /** The top left of the axes goes to the offset and the bottom right lies a scaled range to
      the right of it and below it.  As placing is even along segments, this fixes the map. */
  lemma PlaceCorners(f: Frame)
    ensures Place(f, Point(f.xs.min, f.ys.max)) == Point(f.xoffset, f.yoffset)
    ensures Place(f, Point(f.xs.max, f.ys.min)) ==
              Point((f.xs.max - f.xs.min) * f.xs.scale + f.xoffset, (f.ys.max - f.ys.min) * f.ys.scale + f.yoffset)
  {
    assert (f.xs.min - f.xs.min) * f.xs.scale == 0.0 && (f.ys.max - f.ys.max) * f.ys.scale == 0.0;
  }

  /** The data point is found again from its place on the canvas. */
  lemma PlaceRoundTrip(f: Frame, p: Point)
    requires f.xs.scale != 0.0 && f.ys.scale != 0.0
    ensures var q := Place(f, p);
      p == Point(XFromCanvas(f.xs, q.x - f.xoffset), YFromCanvas(f.ys, q.y - f.yoffset))
  {
    CanvasRoundTrip(f.xs, p.x);
    CanvasRoundTrip(f.ys, p.y);
  }

  /** To the right in the data is to the right on the canvas, and up is up. */
  lemma PlaceUpright(f: Frame, p: Point, q: Point)
    requires f.xs.scale > 0.0 && f.ys.scale > 0.0
    ensures p.x <= q.x <==> Place(f, p).x <= Place(f, q).x
    ensures p.y <= q.y <==> Place(f, q).y <= Place(f, p).y
  {
    Scaled(p.x - f.xs.min, q.x - f.xs.min, f.xs.scale);
    Scaled(f.ys.max - q.y, f.ys.max - p.y, f.ys.scale);
  }

  lemma Cancel(x: real, d: real)
    requires d != 0.0
    ensures x * d / d == x
  {
    Quotient(x * d, d);
    assert (x * d / d - x) * d == 0.0;
  }

  lemma PlaceAt(f: Frame, s: Segment, t: real)
    ensures Place(f, At(s, t)) == At(PlaceSegment(f, s), t)
  {
    MixScaled(s.a.x, s.b.x, t, f.xs.min, f.xs.scale);
    MixScaled(s.a.y, s.b.y, t, f.ys.max, -f.ys.scale);
  }

  lemma MixScaled(p: real, q: real, t: real, m: real, k: real)
    ensures (Mix(p, q, t) - m) * k == Mix((p - m) * k, (q - m) * k, t)
  {
    assert (q - m) * k - (p - m) * k == (q - p) * k;
    assert t * ((q - p) * k) == (t * (q - p)) * k;
    assert (p - m + t * (q - p)) * k == (p - m) * k + (t * (q - p)) * k;
  }

  /** The placed segment holds exactly the placed points of the segment. */
  lemma PlacedOn(f: Frame, s: Segment, q: Point)
    ensures On(q, PlaceSegment(f, s)) <==> exists p :: On(p, s) && q == Place(f, p)
  {
    if On(q, PlaceSegment(f, s)) {
      var t: real :| 0.0 <= t <= 1.0 && q == At(PlaceSegment(f, s), t);
      PlaceAt(f, s, t);
      assert On(At(s, t), s);
    }
    if p :| On(p, s) && q == Place(f, p) {
      var t: real :| 0.0 <= t <= 1.0 && p == At(s, t);
      PlaceAt(f, s, t);
    }
  }

  // ----- Pen -----

  datatype Op = MoveTo(to: Point) | LineTo(to: Point)

  function Pen(ops: seq<Op>): Option<Point> {
    if ops == [] then None else Some(ops[|ops| - 1].to)
  }

  /** The strokes that drawing commands leave: one for each line drawn from where the pen is. */
  function Strokes(ops: seq<Op>): seq<Segment> {
    if ops == [] then []
    else
      var n := |ops| - 1;
      Strokes(ops[..n]) + if ops[n].LineTo? && Pen(ops[..n]).Some? then [Segment(Pen(ops[..n]).value, ops[n].to)] else []
  }

  // ----- Line -----

  /** The stroke for the pair of points that ends at position `i`, if there is one. */
  function StrokeAt(data: seq<Option<Point>>, f: Frame, i: nat): seq<Segment>
    requires i < |data|
  {
    if i == 0 || data[i - 1].None? || data[i].None? then []
    else
      var c := Clipped(Segment(data[i - 1].value, data[i].value), f.xs, f.ys);
      if c.None? then [] else [PlaceSegment(f, c.value)]
  }

  function LineStrokes(data: seq<Option<Point>>, f: Frame, n: nat): seq<Segment>
    requires n <= |data|
  {
    if n == 0 then [] else LineStrokes(data, f, n - 1) + StrokeAt(data, f, n - 1)
  }

  lemma StrokesSnoc(ops: seq<Op>, op: Op)
    ensures Strokes(ops + [op]) == Strokes(ops) + if op.LineTo? && Pen(ops).Some? then [Segment(Pen(ops).value, op.to)] else []
    ensures Pen(ops + [op]) == Some(op.to)
  {
    assert (ops + [op])[..|ops|] == ops;
  }

  /** With or without a move to where the pen already is, a line leaves the same stroke. */
  lemma MoveElided(ops: seq<Op>, a: Point, b: Point)
    ensures Strokes(ops + [MoveTo(a)] + [LineTo(b)]) == Strokes(ops) + [Segment(a, b)]
    ensures Pen(ops) == Some(a) ==> Strokes(ops + [LineTo(b)]) == Strokes(ops) + [Segment(a, b)]
    ensures Pen(ops + [MoveTo(a)] + [LineTo(b)]) == Some(b) && Pen(ops + [LineTo(b)]) == Some(b)
  {
    StrokesSnoc(ops, MoveTo(a));
    StrokesSnoc(ops + [MoveTo(a)], LineTo(b));
    StrokesSnoc(ops, LineTo(b));
    assert Strokes(ops) + [] == Strokes(ops);
  }

  /** The commands with one more stroke, which moves the pen only if it is elsewhere. */
  function Stroked(ops: seq<Op>, s: Segment): seq<Op> {
    (if Pen(ops) == Some(s.a) then ops else ops + [MoveTo(s.a)]) + [LineTo(s.b)]
  }

  lemma StrokedStrokes(ops: seq<Op>, s: Segment)
    ensures Strokes(Stroked(ops, s)) == Strokes(ops) + [s] && Pen(Stroked(ops, s)) == Some(s.b)
  {
    hide Strokes, Pen;
    MoveElided(ops, s.a, s.b);
  }

  /** The pen is never moved to where it already is. */
  predicate NoIdleMove(ops: seq<Op>) {
    forall i | 0 <= i < |ops| && ops[i].MoveTo? :: Pen(ops[..i]) != Some(ops[i].to)
  }

  lemma StrokedBusy(ops: seq<Op>, s: Segment)
    requires NoIdleMove(ops)
    ensures NoIdleMove(Stroked(ops, s))
  {
    var more := Stroked(ops, s);
    forall i | 0 <= i < |more| && more[i].MoveTo?
      ensures Pen(more[..i]) != Some(more[i].to)
    {
      assert i <= |ops| && more[..i] == ops[..i];
    }
  }

  /** One turn of the drawing loop gives the strokes for one more data point. */
  lemma DrawTurn(data: seq<Option<Point>>, f: Frame, i: nat, ops: seq<Op>)
    requires i < |data| && Strokes(ops) == LineStrokes(data, f, i)
    ensures Strokes(if StrokeAt(data, f, i) == [] then ops else Stroked(ops, StrokeAt(data, f, i)[0]))
            == LineStrokes(data, f, i + 1)
  {
    hide Strokes, Clipped, Place;
    var drawn := StrokeAt(data, f, i);
    if drawn == [] {
      assert Strokes(ops) + drawn == Strokes(ops);
    } else {
      StrokedStrokes(ops, drawn[0]);
      assert drawn == [drawn[0]];
    }
  }

  /** Draws the series.  The moves to where the pen already is are left out, which changes no
      stroke. */
  method Draw(data: seq<Option<Point>>, f: Frame) returns (ops: seq<Op>)
    ensures Strokes(ops) == LineStrokes(data, f, |data|)
    ensures NoIdleMove(ops)
  {
    ops := [];
    assert Strokes(ops) == [] == LineStrokes(data, f, 0) && Pen(ops) == None;
    assert NoIdleMove(ops);
    hide Strokes, Pen, Clipped, Place, LineStrokes, NoIdleMove;
    var prev, cur: Option<Point>, drawn: Option<Point> := None, None, None;
    for i := 0 to |data|
      invariant cur == if i == 0 then None else data[i - 1]
      invariant Pen(ops) == drawn && NoIdleMove(ops)
      invariant Strokes(ops) == LineStrokes(data, f, i)
    {
      DrawTurn(data, f, i, ops);
      prev := cur;
      cur := data[i];
      if prev.None? || cur.None? {
        continue;
      }
      var c := Clipped(Segment(prev.value, cur.value), f.xs, f.ys);
      if c.None? {
        continue;
      }
      var a, b := Place(f, c.value.a), Place(f, c.value.b);
      StrokedStrokes(ops, Segment(a, b));
      StrokedBusy(ops, Segment(a, b));
      if drawn != Some(a) {
        ops := ops + [MoveTo(a)];
      }
      drawn := Some(b);
      ops := ops + [LineTo(b)];
    }
  }

  // ----- What is on the canvas -----

  ghost predicate Inked(ss: seq<Segment>, q: Point) {
    exists s :: s in ss && On(q, s)
  }

  /** A point of the data between the points at `i - 1` and `i` that the axes show. */
  ghost predicate Shown(data: seq<Option<Point>>, f: Frame, i: nat, p: Point) {
    && 0 < i < |data| && data[i - 1].Some? && data[i].Some?
    && On(p, Segment(data[i - 1].value, data[i].value)) && Inside(p, f.xs, f.ys)
  }

  lemma StrokeAtExact(data: seq<Option<Point>>, f: Frame, i: nat, q: Point)
    requires i < |data|
    ensures Inked(StrokeAt(data, f, i), q) <==> exists p :: Shown(data, f, i, p) && q == Place(f, p)
  {
    if i > 0 && data[i - 1].Some? && data[i].Some? {
      var s := Segment(data[i - 1].value, data[i].value);
      ClippedExact(s, f.xs, f.ys);
      var c := Clipped(s, f.xs, f.ys);
      if c.Some? {
        PlacedOn(f, c.value, q);
        var placed := PlaceSegment(f, c.value);
        assert StrokeAt(data, f, i) == [placed];
        if On(q, placed) {
          var p :| On(p, c.value) && q == Place(f, p);
          assert Shown(data, f, i, p);
          assert placed in StrokeAt(data, f, i);
        }
        if p :| Shown(data, f, i, p) && q == Place(f, p) {
          assert On(p, c.value);
        }
      }
    }
  }

  /** The line drawn inks exactly the data's polyline as far as the axes show it. */
  lemma {:induction false} LineExact(data: seq<Option<Point>>, f: Frame, n: nat, q: Point)
    requires n <= |data|
    ensures Inked(LineStrokes(data, f, n), q) <==> exists i: nat, p :: i < n && Shown(data, f, i, p) && q == Place(f, p)
  {
    if n > 0 {
      LineExact(data, f, n - 1, q);
      StrokeAtExact(data, f, n - 1, q);
      var before, last := LineStrokes(data, f, n - 1), StrokeAt(data, f, n - 1);
      assert Inked(before + last, q) <==> Inked(before, q) || Inked(last, q) by {
        InkedConcat(before, last, q);
      }
    }
  }

  lemma InkedConcat(a: seq<Segment>, b: seq<Segment>, q: Point)
    ensures Inked(a + b, q) <==> Inked(a, q) || Inked(b, q)
  {
    if s :| s in a && On(q, s) {
      assert s in a + b;
    }
    if s :| s in b && On(q, s) {
      assert s in a + b;
    }
  }
}

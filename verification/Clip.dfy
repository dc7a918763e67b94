/** Clipping of line segments to the rectangle of a plot's axes, over the reals. */
module Clip {
  import opened Wrappers

  datatype Point = Point(x: real, y: real)

  datatype Segment = Segment(a: Point, b: Point)

  datatype Axis = Axis(min: real, max: real, scale: real)

  // ----- Segments -----

  /** The value at `t` of one that runs evenly from `p` at 0 to `q` at 1. */
  function Mix(p: real, q: real, t: real): real {
    p + t * (q - p)
  }

  /** The point at parameter `t`: the first end at 0, the second at 1. */
  function At(s: Segment, t: real): Point {
    Point(Mix(s.a.x, s.b.x, t), Mix(s.a.y, s.b.y, t))
  }

  ghost predicate On(p: Point, s: Segment) {
    exists t: real :: 0.0 <= t <= 1.0 && p == At(s, t)
  }

  lemma Quotient(n: real, d: real)
    requires d != 0.0
    ensures n / d * d == n
  {
  }

  /** A part of a whole is between 0 and 1. */
  lemma UnitQuotient(n: real, d: real)
    requires 0.0 <= n <= d && 0.0 < d
    ensures 0.0 <= n / d <= 1.0
  {
    Quotient(n, d);
    Scaled(0.0, n / d, d);
    Scaled(n / d, 1.0, d);
  }

  lemma Scaled(x: real, y: real, d: real)
    requires d > 0.0
    ensures x * d <= y * d <==> x <= y
  {
    var z := y - x;
    assert y * d - x * d == z * d;
    if z >= 0.0 {
      Product(z, d);
    } else {
      Product(-z, d);
      assert z * d != 0.0;
    }
  }

  lemma Product(x: real, y: real)
    requires x >= 0.0 && y >= 0.0
    ensures x * y >= 0.0
  {
  }

  lemma MixWithin(p: real, q: real, u: real, v: real, r: real)
    ensures Mix(Mix(p, q, u), Mix(p, q, v), r) == Mix(p, q, Mix(u, v, r))
  {
    var d := q - p;
    assert Mix(p, q, v) - Mix(p, q, u) == (v - u) * d;
    assert r * ((v - u) * d) == (r * (v - u)) * d;
    assert (u + r * (v - u)) * d == u * d + (r * (v - u)) * d;
  }

  /** The point of a piece of a segment is the point of the segment at the mixed parameter. */
  lemma AtWithin(s: Segment, u: real, v: real, r: real)
    ensures At(Segment(At(s, u), At(s, v)), r) == At(s, Mix(u, v, r))
  {
    MixWithin(s.a.x, s.b.x, u, v, r);
    MixWithin(s.a.y, s.b.y, u, v, r);
  }

  lemma MixBetween(u: real, v: real, r: real)
    requires u <= v && 0.0 <= r <= 1.0
    ensures u <= Mix(u, v, r) <= v
  {
    Product(r, v - u);
    Product(1.0 - r, v - u);
    assert v - Mix(u, v, r) == (1.0 - r) * (v - u);
  }

  /** Every value between two others is a mix of them. */
  lemma Unmix(u: real, v: real, t: real) returns (r: real)
    requires u <= t <= v
    ensures 0.0 <= r <= 1.0 && Mix(u, v, r) == t
  {
    if u == v {
      r := 0.0;
    } else {
      r := (t - u) / (v - u);
      Quotient(t - u, v - u);
      UnitQuotient(t - u, v - u);
    }
  }

  /** A piece of a segment holds the points with parameters between those of its ends. */
  lemma PieceOn(s: Segment, u: real, v: real, p: Point)
    requires u <= v
    ensures On(p, Segment(At(s, u), At(s, v))) <==> exists t: real :: u <= t <= v && p == At(s, t)
  {
    var piece := Segment(At(s, u), At(s, v));
    if On(p, piece) {
      var r: real :| 0.0 <= r <= 1.0 && p == At(piece, r);
      AtWithin(s, u, v, r);
      MixBetween(u, v, r);
    }
    if t: real :| u <= t <= v && p == At(s, t) {
      var r := Unmix(u, v, t);
      AtWithin(s, u, v, r);
      assert p == At(piece, r);
    }
  }

  // ----- One edge at a time -----

  /** Where the other coordinate is, `x1` to `x2`, when the one from `y1` to `y2` is `m`. */
  function Meet(y1: real, y2: real, m: real, x1: real, x2: real): real
    requires y1 != y2
  {
    (m - y1) / (y2 - y1) * (x2 - x1) + x1
  }

  function ClipYMin(s: Segment, m: real): Option<Segment> {
    var Segment(a, b) := s;
    if a.y <= b.y && a.y < m then
      if b.y < m then None
      else Some(Segment(Point(Meet(a.y, b.y, m, a.x, b.x), m), b))
    else if b.y <= a.y && b.y < m then
      if a.y < m then None
      else Some(Segment(a, Point(Meet(a.y, b.y, m, a.x, b.x), m)))
    else Some(s)
  }

  function ClipYMax(s: Segment, m: real): Option<Segment> {
    var Segment(a, b) := s;
    if a.y >= b.y && a.y > m then
      if b.y > m then None
      else Some(Segment(Point(Meet(a.y, b.y, m, a.x, b.x), m), b))
    else if b.y >= a.y && b.y > m then
      if a.y > m then None
      else Some(Segment(a, Point(Meet(a.y, b.y, m, a.x, b.x), m)))
    else Some(s)
  }

  function ClipXMin(s: Segment, m: real): Option<Segment> {
    var Segment(a, b) := s;
    if a.x <= b.x && a.x < m then
      if b.x < m then None
      else Some(Segment(Point(m, Meet(a.x, b.x, m, a.y, b.y)), b))
    else if b.x <= a.x && b.x < m then
      if a.x < m then None
      else Some(Segment(a, Point(m, Meet(a.x, b.x, m, a.y, b.y))))
    else Some(s)
  }

  function ClipXMax(s: Segment, m: real): Option<Segment> {
    var Segment(a, b) := s;
    if a.x >= b.x && a.x > m then
      if b.x > m then None
      else Some(Segment(Point(m, Meet(a.x, b.x, m, a.y, b.y)), b))
    else if b.x >= a.x && b.x > m then
      if a.x > m then None
      else Some(Segment(a, Point(m, Meet(a.x, b.x, m, a.y, b.y))))
    else Some(s)
  }

  lemma MixAbove(p: real, q: real, m: real, t: real)
    requires p >= m && q >= m && 0.0 <= t <= 1.0
    ensures Mix(p, q, t) >= m
  {
    Product(t, q - m);
    Product(1.0 - t, p - m);
    assert Mix(p, q, t) - m == t * (q - m) + (1.0 - t) * (p - m);
  }

  lemma MixBelow(p: real, q: real, m: real, t: real)
    requires p < m && q < m && 0.0 <= t <= 1.0
    ensures Mix(p, q, t) < m
  {
    var n := if p < q then q else p;
    MixAbove(-p, -q, -n, t);
    assert Mix(-p, -q, t) == -Mix(p, q, t);
  }

  lemma RisesAt(p: real, q: real, m: real, u: real, t: real)
    requires p < q && u * (q - p) == m - p
    ensures Mix(p, q, t) >= m <==> u <= t
  {
    Scaled(u, t, q - p);
  }

  lemma FallsAt(p: real, q: real, m: real, v: real, t: real)
    requires q < p && v * (q - p) == m - p
    ensures Mix(p, q, t) >= m <==> t <= v
  {
    assert v * (p - q) == p - m;
    assert Mix(p, q, t) == p - t * (p - q);
    Scaled(t, v, p - q);
  }

  /** The parameters at which a value that runs from `p` to `q` is at least `m`. */
  lemma Crossing(p: real, q: real, m: real) returns (u: real, v: real)
    requires p >= m || q >= m
    ensures 0.0 <= u <= v <= 1.0
    ensures forall t: real | 0.0 <= t <= 1.0 :: Mix(p, q, t) >= m <==> u <= t <= v
    ensures p < m ==> u == (m - p) / (q - p) && v == 1.0 && Mix(p, q, u) == m
    ensures q < m ==> u == 0.0 && v == (m - p) / (q - p) && Mix(p, q, v) == m
    ensures p >= m && q >= m ==> u == 0.0 && v == 1.0
  {
    u, v := 0.0, 1.0;
    if p < m {
      u := (m - p) / (q - p);
      Quotient(m - p, q - p);
      RisesAt(p, q, m, u, 0.0);
      RisesAt(p, q, m, u, 1.0);
      forall t: real {
        RisesAt(p, q, m, u, t);
      }
    } else if q < m {
      v := (m - p) / (q - p);
      Quotient(m - p, q - p);
      FallsAt(p, q, m, v, 0.0);
      FallsAt(p, q, m, v, 1.0);
      forall t: real {
        FallsAt(p, q, m, v, t);
      }
    } else {
      forall t: real | 0.0 <= t <= 1.0 {
        MixAbove(p, q, m, t);
      }
    }
  }

  /** Clipping at the lower edge leaves exactly the points above it. */
  lemma ClipYMinExact(s: Segment, m: real)
    ensures ClipYMin(s, m).Some? <==> s.a.y >= m || s.b.y >= m
    ensures forall p :: (ClipYMin(s, m).Some? && On(p, ClipYMin(s, m).value)) <==> On(p, s) && p.y >= m
  {
    var c := ClipYMin(s, m);
    if s.a.y >= m || s.b.y >= m {
      var u, v := Crossing(s.a.y, s.b.y, m);
      assert At(s, 0.0) == s.a && At(s, 1.0) == s.b;
      assert c.value == Segment(At(s, u), At(s, v));
      forall p
        ensures On(p, c.value) <==> On(p, s) && p.y >= m
      {
        PieceOn(s, u, v, p);
      }
    } else {
      forall p | On(p, s)
        ensures p.y < m
      {
        var t: real :| 0.0 <= t <= 1.0 && p == At(s, t);
        MixBelow(s.a.y, s.b.y, m, t);
      }
    }
  }

  // The other edges are the lower one, mirrored.

  function FlipPoint(p: Point): Point {
    Point(p.x, -p.y)
  }

  function Flip(s: Segment): Segment {
    Segment(FlipPoint(s.a), FlipPoint(s.b))
  }

  function TurnPoint(p: Point): Point {
    Point(p.y, p.x)
  }

  function Turn(s: Segment): Segment {
    Segment(TurnPoint(s.a), TurnPoint(s.b))
  }

  lemma OnFlip(p: Point, s: Segment)
    ensures On(FlipPoint(p), Flip(s)) <==> On(p, s)
  {
    forall t: real
      ensures At(Flip(s), t) == FlipPoint(At(s, t))
    {
      assert Mix(-s.a.y, -s.b.y, t) == -Mix(s.a.y, s.b.y, t);
    }
  }

  lemma OnTurn(p: Point, s: Segment)
    ensures On(TurnPoint(p), Turn(s)) <==> On(p, s)
  {
    forall t: real
      ensures At(Turn(s), t) == TurnPoint(At(s, t))
    {
    }
  }

  lemma NegatedQuotient(n: real, d: real)
    requires d != 0.0
    ensures (-n) / (-d) == n / d
  {
    Quotient(n, d);
    Quotient(-n, -d);
    assert ((-n) / (-d) - n / d) * d == 0.0;
  }

  lemma ClipYMaxIsFlipped(s: Segment, m: real)
    ensures var c := ClipYMin(Flip(s), -m);
      ClipYMax(s, m) == if c.None? then None else Some(Flip(c.value))
  {
    if s.a.y != s.b.y {
      NegatedQuotient(m - s.a.y, s.b.y - s.a.y);
      assert -m - -s.a.y == -(m - s.a.y) && -s.b.y - -s.a.y == -(s.b.y - s.a.y);
      assert Meet(-s.a.y, -s.b.y, -m, s.a.x, s.b.x) == Meet(s.a.y, s.b.y, m, s.a.x, s.b.x);
    }
  }

  lemma ClipYMaxExact(s: Segment, m: real)
    ensures ClipYMax(s, m).Some? <==> s.a.y <= m || s.b.y <= m
    ensures forall p :: (ClipYMax(s, m).Some? && On(p, ClipYMax(s, m).value)) <==> On(p, s) && p.y <= m
  {
    ClipYMaxIsFlipped(s, m);
    ClipYMinExact(Flip(s), -m);
    var c := ClipYMin(Flip(s), -m);
    forall p
      ensures (ClipYMax(s, m).Some? && On(p, ClipYMax(s, m).value)) <==> On(p, s) && p.y <= m
    {
      OnFlip(p, s);
      if c.Some? {
        OnFlip(FlipPoint(p), c.value);
        assert FlipPoint(FlipPoint(p)) == p;
      }
      assert (c.Some? && On(FlipPoint(p), c.value)) <==> On(FlipPoint(p), Flip(s)) && FlipPoint(p).y >= -m;
    }
  }

  lemma ClipXMinExact(s: Segment, m: real)
    ensures ClipXMin(s, m).Some? <==> s.a.x >= m || s.b.x >= m
    ensures forall p :: (ClipXMin(s, m).Some? && On(p, ClipXMin(s, m).value)) <==> On(p, s) && p.x >= m
  {
    var c := ClipYMin(Turn(s), m);
    assert c.Some? ==> ClipXMin(s, m) == Some(Turn(c.value));
    ClipYMinExact(Turn(s), m);
    forall p
      ensures (ClipXMin(s, m).Some? && On(p, ClipXMin(s, m).value)) <==> On(p, s) && p.x >= m
    {
      OnTurn(p, s);
      if c.Some? {
        OnTurn(TurnPoint(p), c.value);
        assert TurnPoint(TurnPoint(p)) == p;
      }
      assert (c.Some? && On(TurnPoint(p), c.value)) <==> On(TurnPoint(p), Turn(s)) && TurnPoint(p).y >= m;
    }
  }

  lemma ClipXMaxExact(s: Segment, m: real)
    ensures ClipXMax(s, m).Some? <==> s.a.x <= m || s.b.x <= m
    ensures forall p :: (ClipXMax(s, m).Some? && On(p, ClipXMax(s, m).value)) <==> On(p, s) && p.x <= m
  {
    var c := ClipYMax(Turn(s), m);
    assert c.Some? ==> ClipXMax(s, m) == Some(Turn(c.value));
    ClipYMaxExact(Turn(s), m);
    forall p
      ensures (ClipXMax(s, m).Some? && On(p, ClipXMax(s, m).value)) <==> On(p, s) && p.x <= m
    {
      OnTurn(p, s);
      if c.Some? {
        OnTurn(TurnPoint(p), c.value);
        assert TurnPoint(TurnPoint(p)) == p;
      }
      assert (c.Some? && On(TurnPoint(p), c.value)) <==> On(TurnPoint(p), Turn(s)) && TurnPoint(p).y <= m;
    }
  }

  // ----- The rectangle -----

  predicate Inside(p: Point, xs: Axis, ys: Axis) {
    xs.min <= p.x <= xs.max && ys.min <= p.y <= ys.max
  }

  /** The part of the segment inside the rectangle, edge by edge. */
  function Clipped(s: Segment, xs: Axis, ys: Axis): Option<Segment> {
    var c1 := ClipYMin(s, ys.min);
    if c1.None? then None
    else
      var c2 := ClipYMax(c1.value, ys.max);
      if c2.None? then None else ClippedX(c2.value, xs)
  }

  function ClippedX(s: Segment, xs: Axis): Option<Segment> {
    var c := ClipXMin(s, xs.min);
    if c.None? then None else ClipXMax(c.value, xs.max)
  }

  lemma ClippedXExact(s: Segment, xs: Axis)
    ensures forall p :: (ClippedX(s, xs).Some? && On(p, ClippedX(s, xs).value)) <==> On(p, s) && xs.min <= p.x <= xs.max
  {
    ClipXMinExact(s, xs.min);
    var c := ClipXMin(s, xs.min);
    if c.Some? {
      ClipXMaxExact(c.value, xs.max);
    }
  }

  /** Clipping is exact: what is left of the segment is its intersection with the rectangle,
      and nothing is left exactly when they do not meet. */
  lemma ClippedExact(s: Segment, xs: Axis, ys: Axis)
    ensures forall p :: (Clipped(s, xs, ys).Some? && On(p, Clipped(s, xs, ys).value)) <==> On(p, s) && Inside(p, xs, ys)
    ensures Clipped(s, xs, ys).None? <==> forall p | On(p, s) :: !Inside(p, xs, ys)
  {
    ClipYMinExact(s, ys.min);
    var c1 := ClipYMin(s, ys.min);
    if c1.Some? {
      ClipYMaxExact(c1.value, ys.max);
      var c2 := ClipYMax(c1.value, ys.max);
      if c2.Some? {
        ClippedXExact(c2.value, xs);
      }
    }
    if Clipped(s, xs, ys).Some? {
      var r := Clipped(s, xs, ys).value;
      assert r.a == At(r, 0.0);
      assert On(r.a, r);
    }
  }
}

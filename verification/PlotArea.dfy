/** The upper outline of a filled area: for each pair of neighbouring data points, the
vertices of the line between them, cut to the x range and pressed into the y range. */
module PlotArea {
  import opened Wrappers
  import opened Clip

  // ----- What the outline should be -----

  function Clamp(v: real, axis: Axis): real {
    if v < axis.min then axis.min else if v > axis.max then axis.max else v
  }

  function Pressed(p: Point, ys: Axis): Point {
    Point(p.x, Clamp(p.y, ys))
  }

  ghost predicate OnPath(q: Point, vs: seq<Point>) {
    exists i :: 0 <= i < |vs| - 1 && On(q, Segment(vs[i], vs[i + 1]))
  }

  /** The path through the vertices is the segment with its y values pressed into the range. */
  ghost predicate Traces(vs: seq<Point>, c: Segment, ys: Axis) {
    forall q :: OnPath(q, vs) <==> exists p :: On(p, c) && q == Pressed(p, ys)
  }

  /** The x values run one way, in the direction of the segment. */
  ghost predicate Runs(vs: seq<Point>, c: Segment) {
    && (c.a.x <= c.b.x ==> forall i | 0 <= i < |vs| - 1 :: vs[i].x <= vs[i + 1].x)
    && (c.a.x >= c.b.x ==> forall i | 0 <= i < |vs| - 1 :: vs[i].x >= vs[i + 1].x)
  }

  // ----- What is drawn -----

  /** Clipping at the lower edge "without shortcutting": a segment that is all below stays. */
  function CutMin(c: Segment, m: real): Segment {
    var Segment(a, b) := c;
    if a.y <= b.y && a.y < m && b.y >= m then Segment(Point(Meet(a.y, b.y, m, a.x, b.x), m), b)
    else if b.y <= a.y && b.y < m && a.y >= m then Segment(a, Point(Meet(a.y, b.y, m, a.x, b.x), m))
    else c
  }

  function CutMax(c: Segment, m: real): Segment {
    var Segment(a, b) := c;
    if a.y >= b.y && a.y > m && b.y <= m then Segment(Point(Meet(a.y, b.y, m, a.x, b.x), m), b)
    else if b.y >= a.y && b.y > m && a.y <= m then Segment(a, Point(Meet(a.y, b.y, m, a.x, b.x), m))
    else c
  }

  /** Neither wholly at or above the range nor wholly at or below it. */
  predicate Mixed(c: Segment, ys: Axis) {
    !(c.a.y >= ys.max && c.b.y >= ys.max) && !(c.a.y <= ys.min && c.b.y <= ys.min)
  }

  /** The part of the segment in the y range lies between two parameters, and before and
      after them the pressed line is level. */
  ghost predicate Levels(c: Segment, ys: Axis, d: Segment, u: real, v: real) {
    && 0.0 <= u <= v <= 1.0 && d == Segment(At(c, u), At(c, v))
    && (u > 0.0 ==> d.a.y == ys.min || d.a.y == ys.max)
    && (v < 1.0 ==> d.b.y == ys.min || d.b.y == ys.max)
    && (forall t: real | 0.0 <= t <= u :: Clamp(Mix(c.a.y, c.b.y, t), ys) == d.a.y)
    && (forall t: real | u <= t <= v :: Clamp(Mix(c.a.y, c.b.y, t), ys) == Mix(c.a.y, c.b.y, t))
    && (forall t: real | v <= t <= 1.0 :: Clamp(Mix(c.a.y, c.b.y, t), ys) == d.b.y)
  }

  lemma MixMonotone(p: real, q: real, s: real, t: real)
    requires p <= q && s <= t
    ensures Mix(p, q, s) <= Mix(p, q, t)
  {
    Product(t - s, q - p);
    assert Mix(p, q, t) - Mix(p, q, s) == (t - s) * (q - p);
  }

  lemma MixAntitone(p: real, q: real, s: real, t: real)
    requires p >= q && s <= t
    ensures Mix(p, q, s) >= Mix(p, q, t)
  {
    Product(t - s, p - q);
    assert Mix(p, q, s) - Mix(p, q, t) == (t - s) * (p - q);
  }

  /** The point where a segment meets a level is its point at some parameter. */
  lemma MeetAt(s: Segment, m: real) returns (w: real)
    requires (s.a.y < s.b.y && s.a.y <= m <= s.b.y) || (s.b.y < s.a.y && s.b.y <= m <= s.a.y)
    ensures 0.0 <= w <= 1.0
    ensures At(s, w) == Point(Meet(s.a.y, s.b.y, m, s.a.x, s.b.x), m)
  {
    var n, d := m - s.a.y, s.b.y - s.a.y;
    w := n / d;
    Quotient(n, d);
    if d > 0.0 {
      UnitQuotient(n, d);
    } else {
      NegatedQuotient(n, d);
      UnitQuotient(-n, -d);
    }
  }

  /** A rising value that is at the lower bound at `u`, unless it starts above it, and at the
      upper bound at `v`, unless it ends below it, is level outside when pressed. */
  lemma RisingClamped(p: real, q: real, ys: Axis, u: real, v: real, t: real)
    requires p <= q && ys.min <= ys.max && 0.0 <= u <= v <= 1.0 && 0.0 <= t <= 1.0
    requires ys.min <= Mix(p, q, u) && (u > 0.0 ==> Mix(p, q, u) == ys.min)
    requires Mix(p, q, v) <= ys.max && (v < 1.0 ==> Mix(p, q, v) == ys.max)
    ensures t <= u ==> Clamp(Mix(p, q, t), ys) == Mix(p, q, u)
    ensures u <= t <= v ==> Clamp(Mix(p, q, t), ys) == Mix(p, q, t)
    ensures v <= t ==> Clamp(Mix(p, q, t), ys) == Mix(p, q, v)
  {
    MixMonotone(p, q, u, v);
    if t <= u { MixMonotone(p, q, t, u); } else { MixMonotone(p, q, u, t); }
    if t <= v { MixMonotone(p, q, t, v); } else { MixMonotone(p, q, v, t); }
  }

  lemma FallingClamped(p: real, q: real, ys: Axis, u: real, v: real, t: real)
    requires p >= q && ys.min <= ys.max && 0.0 <= u <= v <= 1.0 && 0.0 <= t <= 1.0
    requires Mix(p, q, u) <= ys.max && (u > 0.0 ==> Mix(p, q, u) == ys.max)
    requires ys.min <= Mix(p, q, v) && (v < 1.0 ==> Mix(p, q, v) == ys.min)
    ensures t <= u ==> Clamp(Mix(p, q, t), ys) == Mix(p, q, u)
    ensures u <= t <= v ==> Clamp(Mix(p, q, t), ys) == Mix(p, q, t)
    ensures v <= t ==> Clamp(Mix(p, q, t), ys) == Mix(p, q, v)
  {
    MixAntitone(p, q, u, v);
    if t <= u { MixAntitone(p, q, t, u); } else { MixAntitone(p, q, u, t); }
    if t <= v { MixAntitone(p, q, t, v); } else { MixAntitone(p, q, v, t); }
  }

  lemma Rising(c: Segment, ys: Axis) returns (u: real, v: real)
    requires ys.min <= ys.max && Mixed(c, ys) && c.a.y <= c.b.y
    ensures Levels(c, ys, CutMax(CutMin(c, ys.min), ys.max), u, v)
  {
    u, v := RisingCut(c, ys);
    hide Mix, CutMin, CutMax;
    forall t: real | 0.0 <= t <= 1.0
      ensures t <= u ==> Clamp(Mix(c.a.y, c.b.y, t), ys) == Mix(c.a.y, c.b.y, u)
      ensures u <= t <= v ==> Clamp(Mix(c.a.y, c.b.y, t), ys) == Mix(c.a.y, c.b.y, t)
      ensures v <= t ==> Clamp(Mix(c.a.y, c.b.y, t), ys) == Mix(c.a.y, c.b.y, v)
    {
      RisingClamped(c.a.y, c.b.y, ys, u, v, t);
    }
  }

  lemma RisingCut(c: Segment, ys: Axis) returns (u: real, v: real)
    requires ys.min <= ys.max && Mixed(c, ys) && c.a.y <= c.b.y
    ensures 0.0 <= u <= v <= 1.0 && CutMax(CutMin(c, ys.min), ys.max) == Segment(At(c, u), At(c, v))
    ensures ys.min <= Mix(c.a.y, c.b.y, u) && (u > 0.0 ==> Mix(c.a.y, c.b.y, u) == ys.min)
    ensures Mix(c.a.y, c.b.y, v) <= ys.max && (v < 1.0 ==> Mix(c.a.y, c.b.y, v) == ys.max)
  {
    assert At(c, 0.0) == c.a && At(c, 1.0) == c.b;
    u, v := 0.0, 1.0;
    if c.a.y < ys.min {
      u := MeetAt(c, ys.min);
    }
    var l := Segment(At(c, u), c.b);
    assert l == CutMin(c, ys.min);
    hide CutMin, Mix, Meet;
    if c.b.y > ys.max {
      var w := MeetAt(l, ys.max);
      v := Mix(u, 1.0, w);
      MixBetween(u, 1.0, w);
      AtWithin(c, u, 1.0, w);
    }
  }

  lemma Falling(c: Segment, ys: Axis) returns (u: real, v: real)
    requires ys.min <= ys.max && Mixed(c, ys) && c.a.y > c.b.y
    ensures Levels(c, ys, CutMax(CutMin(c, ys.min), ys.max), u, v)
  {
    u, v := FallingCut(c, ys);
    hide Mix, CutMin, CutMax;
    forall t: real | 0.0 <= t <= 1.0
      ensures t <= u ==> Clamp(Mix(c.a.y, c.b.y, t), ys) == Mix(c.a.y, c.b.y, u)
      ensures u <= t <= v ==> Clamp(Mix(c.a.y, c.b.y, t), ys) == Mix(c.a.y, c.b.y, t)
      ensures v <= t ==> Clamp(Mix(c.a.y, c.b.y, t), ys) == Mix(c.a.y, c.b.y, v)
    {
      FallingClamped(c.a.y, c.b.y, ys, u, v, t);
    }
  }

  lemma FallingCut(c: Segment, ys: Axis) returns (u: real, v: real)
    requires ys.min <= ys.max && Mixed(c, ys) && c.a.y > c.b.y
    ensures 0.0 <= u <= v <= 1.0 && CutMax(CutMin(c, ys.min), ys.max) == Segment(At(c, u), At(c, v))
    ensures Mix(c.a.y, c.b.y, u) <= ys.max && (u > 0.0 ==> Mix(c.a.y, c.b.y, u) == ys.max)
    ensures ys.min <= Mix(c.a.y, c.b.y, v) && (v < 1.0 ==> Mix(c.a.y, c.b.y, v) == ys.min)
  {
    assert At(c, 0.0) == c.a && At(c, 1.0) == c.b;
    u, v := 0.0, 1.0;
    if c.b.y < ys.min {
      v := MeetAt(c, ys.min);
    }
    var l := Segment(c.a, At(c, v));
    assert l == CutMin(c, ys.min);
    hide CutMin, Mix, Meet;
    if c.a.y > ys.max {
      var w := MeetAt(l, ys.max);
      u := Mix(0.0, v, w);
      MixBetween(0.0, v, w);
      AtWithin(c, 0.0, v, w);
    }
  }

  lemma Levelled(c: Segment, ys: Axis) returns (u: real, v: real)
    requires ys.min <= ys.max && Mixed(c, ys)
    ensures Levels(c, ys, CutMax(CutMin(c, ys.min), ys.max), u, v)
  {
    hide Levels, CutMin, CutMax;
    if c.a.y <= c.b.y {
      u, v := Rising(c, ys);
    } else {
      u, v := Falling(c, ys);
    }
  }

  // ----- The pieces of the outline -----

  /** On a level stretch the pressed line is a level segment. */
  lemma LevelPiece(c: Segment, k: real, u: real, v: real, q: Point)
    requires u <= v
    ensures On(q, Segment(Point(Mix(c.a.x, c.b.x, u), k), Point(Mix(c.a.x, c.b.x, v), k)))
            <==> exists t: real :: u <= t <= v && q == Point(At(c, t).x, k)
  {
    var level := Segment(Point(c.a.x, k), Point(c.b.x, k));
    forall t: real
      ensures At(level, t) == Point(At(c, t).x, k)
    {
      assert Mix(k, k, t) == k;
    }
    PieceOn(level, u, v, q);
    if t: real :| u <= t <= v && q == Point(At(c, t).x, k) {
      assert q == At(level, t);
    }
    if t: real :| u <= t <= v && q == At(level, t) {
      assert q == Point(At(c, t).x, k);
    }
  }

  /** The three stretches: before, in and after the y range. */
  ghost predicate OnStretches(q: Point, c: Segment, d: Segment) {
    || On(q, Segment(Point(c.a.x, d.a.y), d.a))
    || On(q, d)
    || On(q, Segment(d.b, Point(c.b.x, d.b.y)))
  }

  lemma StretchesTrace(c: Segment, ys: Axis, d: Segment, u: real, v: real, q: Point)
    requires Levels(c, ys, d, u, v)
    ensures OnStretches(q, c, d) <==> exists t: real :: 0.0 <= t <= 1.0 && q == Pressed(At(c, t), ys)
  {
    assert Mix(c.a.x, c.b.x, 0.0) == c.a.x && Mix(c.a.x, c.b.x, 1.0) == c.b.x;
    LevelPiece(c, d.a.y, 0.0, u, q);
    PieceOn(c, u, v, q);
    LevelPiece(c, d.b.y, v, 1.0, q);
    hide Mix;
    if On(q, Segment(Point(c.a.x, d.a.y), d.a)) {
      var t: real :| 0.0 <= t <= u && q == Point(At(c, t).x, d.a.y);
      assert q == Pressed(At(c, t), ys);
    } else if On(q, d) {
      var t: real :| u <= t <= v && q == At(c, t);
      assert q == Pressed(At(c, t), ys);
    } else if On(q, Segment(d.b, Point(c.b.x, d.b.y))) {
      var t: real :| v <= t <= 1.0 && q == Point(At(c, t).x, d.b.y);
      assert q == Pressed(At(c, t), ys);
    }
    if t: real :| 0.0 <= t <= 1.0 && q == Pressed(At(c, t), ys) {
      if t <= u {
        assert q == Point(At(c, t).x, d.a.y);
      } else if t <= v {
        assert q == At(c, t);
      } else {
        assert q == Point(At(c, t).x, d.b.y);
      }
    }
  }

  /** The vertices drawn for the stretches; a stretch without width has none of its own. */
  function Vertices(c: Segment, d: Segment, ys: Axis): seq<Point> {
    (if d.a.x != c.a.x then [Point(c.a.x, Edge(d.a.y, ys)), Point(d.a.x, Edge(d.a.y, ys))] else [])
    + [d.a, d.b]
    + (if d.b.x != c.b.x then [Point(d.b.x, Edge(d.b.y, ys)), Point(c.b.x, Edge(d.b.y, ys))] else [])
  }

  function Edge(y: real, ys: Axis): real {
    if y <= ys.min then ys.min else ys.max
  }

  lemma PointOn(q: Point, p: Point)
    ensures On(q, Segment(p, p)) <==> q == p
  {
    assert forall t: real :: At(Segment(p, p), t) == p;
    assert q == p ==> q == At(Segment(p, p), 0.0);
  }

  lemma EndsOn(s: Segment)
    ensures On(s.a, s) && On(s.b, s)
  {
    assert s.a == At(s, 0.0) && s.b == At(s, 1.0);
  }

  lemma VerticesPath(c: Segment, ys: Axis, d: Segment, u: real, v: real, q: Point)
    requires Levels(c, ys, d, u, v) && ys.min <= ys.max
    ensures OnPath(q, Vertices(c, d, ys)) <==> OnStretches(q, c, d)
  {
    var vs := Vertices(c, d, ys);
    EdgesLevel(c, ys, d, u, v);
    var l, r := Point(c.a.x, d.a.y), Point(c.b.x, d.b.y);
    var left := if d.a.x != c.a.x then [l, d.a] else [];
    var right := if d.b.x != c.b.x then [d.b, r] else [];
    assert vs == left + [d.a, d.b] + right;
    PointOn(q, d.a);
    PointOn(q, d.b);
    EndsOn(d);
    hide Mix, On, At;
    var k := |left|;
    if OnPath(q, vs) {
      var i :| 0 <= i < |vs| - 1 && On(q, Segment(vs[i], vs[i + 1]));
      assert i < k || i == k || i > k;
    }
    if On(q, Segment(l, d.a)) && k == 2 {
      assert vs[0] == l && vs[1] == d.a;
    }
    if On(q, d) || q == d.a || q == d.b {
      assert vs[k] == d.a && vs[k + 1] == d.b;
      assert On(q, Segment(vs[k], vs[k + 1]));
    }
    if On(q, Segment(d.b, r)) && |right| == 2 {
      assert vs[k + 2] == d.b && vs[k + 3] == r;
      assert On(q, Segment(vs[k + 2], vs[k + 3]));
    }
  }

  lemma EdgesLevel(c: Segment, ys: Axis, d: Segment, u: real, v: real)
    requires Levels(c, ys, d, u, v) && ys.min <= ys.max
    ensures d.a.x != c.a.x ==> Edge(d.a.y, ys) == d.a.y
    ensures d.b.x != c.b.x ==> Edge(d.b.y, ys) == d.b.y
  {
    assert u == 0.0 ==> d.a.x == c.a.x;
    assert v == 1.0 ==> d.b.x == c.b.x;
  }

  lemma VerticesRun(c: Segment, ys: Axis, d: Segment, u: real, v: real)
    requires Levels(c, ys, d, u, v)
    ensures Runs(Vertices(c, d, ys), c)
  {
    assert Mix(c.a.x, c.b.x, 0.0) == c.a.x && Mix(c.a.x, c.b.x, 1.0) == c.b.x;
    hide Mix, Edge, Clamp;
    if c.a.x <= c.b.x {
      MixMonotone(c.a.x, c.b.x, 0.0, u);
      MixMonotone(c.a.x, c.b.x, u, v);
      MixMonotone(c.a.x, c.b.x, v, 1.0);
    }
    if c.a.x >= c.b.x {
      MixAntitone(c.a.x, c.b.x, 0.0, u);
      MixAntitone(c.a.x, c.b.x, u, v);
      MixAntitone(c.a.x, c.b.x, v, 1.0);
    }
  }

  /** The vertices drawn for a segment that has been cut to the x range. */
  function Outline(c: Segment, ys: Axis): seq<Point> {
    if c.a.y >= ys.max && c.b.y >= ys.max then [Point(c.a.x, ys.max), Point(c.b.x, ys.max)]
    else if c.a.y <= ys.min && c.b.y <= ys.min then [Point(c.a.x, ys.min), Point(c.b.x, ys.min)]
    else Vertices(c, CutMax(CutMin(c, ys.min), ys.max), ys)
  }

  lemma TracesByParameter(vs: seq<Point>, c: Segment, ys: Axis)
    requires forall q :: OnPath(q, vs) <==> exists t: real :: 0.0 <= t <= 1.0 && q == Pressed(At(c, t), ys)
    ensures Traces(vs, c, ys)
  {
    forall q
      ensures OnPath(q, vs) <==> exists p :: On(p, c) && q == Pressed(p, ys)
    {
      if t: real :| 0.0 <= t <= 1.0 && q == Pressed(At(c, t), ys) {
        assert On(At(c, t), c);
      }
      if p :| On(p, c) && q == Pressed(p, ys) {
        var t: real :| 0.0 <= t <= 1.0 && p == At(c, t);
        assert q == Pressed(At(c, t), ys);
      }
    }
  }

  lemma FlatTraces(c: Segment, ys: Axis, k: real)
    requires forall t: real | 0.0 <= t <= 1.0 :: Clamp(Mix(c.a.y, c.b.y, t), ys) == k
    ensures Traces([Point(c.a.x, k), Point(c.b.x, k)], c, ys)
  {
    var vs := [Point(c.a.x, k), Point(c.b.x, k)];
    assert Mix(c.a.x, c.b.x, 0.0) == c.a.x && Mix(c.a.x, c.b.x, 1.0) == c.b.x;
    forall q
      ensures OnPath(q, vs) <==> exists t: real :: 0.0 <= t <= 1.0 && q == Pressed(At(c, t), ys)
    {
      LevelPiece(c, k, 0.0, 1.0, q);
      assert OnPath(q, vs) <==> On(q, Segment(vs[0], vs[1]));
      if t: real :| 0.0 <= t <= 1.0 && q == Point(At(c, t).x, k) {
        assert q == Pressed(At(c, t), ys);
      }
      if t: real :| 0.0 <= t <= 1.0 && q == Pressed(At(c, t), ys) {
        assert q == Point(At(c, t).x, k);
      }
    }
    TracesByParameter(vs, c, ys);
  }

  /** The outline is the segment with its y values pressed into the range, drawn one way. */
  lemma OutlineTraces(c: Segment, ys: Axis)
    requires ys.min <= ys.max
    ensures Traces(Outline(c, ys), c, ys) && Runs(Outline(c, ys), c)
  {
    if c.a.y >= ys.max && c.b.y >= ys.max {
      forall t: real | 0.0 <= t <= 1.0
        ensures Clamp(Mix(c.a.y, c.b.y, t), ys) == ys.max
      {
        MixAbove(c.a.y, c.b.y, ys.max, t);
      }
      FlatTraces(c, ys, ys.max);
    } else if c.a.y <= ys.min && c.b.y <= ys.min {
      forall t: real | 0.0 <= t <= 1.0
        ensures Clamp(Mix(c.a.y, c.b.y, t), ys) == ys.min
      {
        MixAbove(-c.a.y, -c.b.y, -ys.min, t);
        assert Mix(-c.a.y, -c.b.y, t) == -Mix(c.a.y, c.b.y, t);
      }
      FlatTraces(c, ys, ys.min);
    } else {
      var d := CutMax(CutMin(c, ys.min), ys.max);
      var u, v := Levelled(c, ys);
      VerticesRun(c, ys, d, u, v);
      forall q
        ensures OnPath(q, Vertices(c, d, ys)) <==> exists t: real :: 0.0 <= t <= 1.0 && q == Pressed(At(c, t), ys)
      {
        VerticesPath(c, ys, d, u, v, q);
        StretchesTrace(c, ys, d, u, v, q);
      }
      TracesByParameter(Vertices(c, d, ys), c, ys);
    }
  }

  lemma ClippedXDirection(s: Segment, xs: Axis)
    requires ClippedX(s, xs).Some?
    ensures s.a.x <= s.b.x ==> ClippedX(s, xs).value.a.x <= ClippedX(s, xs).value.b.x
    ensures s.a.x >= s.b.x ==> ClippedX(s, xs).value.a.x >= ClippedX(s, xs).value.b.x
  {
  }

  /** Whether the x axis shows the point. */
  predicate InRange(p: Point, xs: Axis) {
    xs.min <= p.x <= xs.max
  }

  /** `vs` is the outline of the part of `s` that the x axis shows. */
  ghost predicate Outlines(vs: seq<Point>, s: Segment, xs: Axis, ys: Axis) {
    && (forall q :: OnPath(q, vs) <==> exists p :: On(p, s) && InRange(p, xs) && q == Pressed(p, ys))
    && (forall q | OnPath(q, vs) :: Inside(q, xs, ys))
    && Runs(vs, s)
  }

  lemma OutlineOfSegment(s: Segment, xs: Axis, ys: Axis)
    requires ys.min <= ys.max
    ensures ClippedX(s, xs).None? <==> forall p | On(p, s) :: !InRange(p, xs)
    ensures ClippedX(s, xs).Some? ==> Outlines(Outline(ClippedX(s, xs).value, ys), s, xs, ys)
  {
    hide On, OnPath, ClippedX, Outline;
    ClippedXExact(s, xs);
    var c := ClippedX(s, xs);
    if c.Some? {
      EndsOn(c.value);
      OutlineTraces(c.value, ys);
      ClippedXDirection(s, xs);
      OutlinesFrom(Outline(c.value, ys), c.value, s, xs, ys);
    }
  }

  lemma OutlinesFrom(vs: seq<Point>, c: Segment, s: Segment, xs: Axis, ys: Axis)
    requires ys.min <= ys.max && Traces(vs, c, ys) && Runs(vs, c)
    requires forall p :: On(p, c) <==> On(p, s) && InRange(p, xs)
    requires s.a.x <= s.b.x ==> c.a.x <= c.b.x
    requires s.a.x >= s.b.x ==> c.a.x >= c.b.x
    ensures Outlines(vs, s, xs, ys)
  {
    hide On, OnPath;
  }

  // ----- Where the area is closed -----

  function Max(x: real, y: real): real {
    if x < y then y else x
  }

  /** The x value below which the area is closed, should this be its last segment. */
  function LastX(c: Segment, ys: Axis): real {
    if Mixed(c, ys) then Max(CutMax(CutMin(c, ys.min), ys.max).b.x, c.b.x) else c.b.x
  }

  lemma MixBefore(p: real, q: real, t: real)
    requires p > q && t < 1.0
    ensures Mix(p, q, t) > q
  {
    assert Mix(p, q, t) - q == (1.0 - t) * (p - q);
    Scaled(1.0 - t, 0.0, p - q);
  }

  /** An end outside the y range is cut off to the left of it if the segment runs to the right,
      and to the right of it if it runs to the left. */
  lemma EndCut(c: Segment, ys: Axis)
    requires ys.min <= ys.max && Mixed(c, ys)
    ensures ys.min <= c.b.y <= ys.max ==> CutMax(CutMin(c, ys.min), ys.max).b == c.b
    ensures c.a.x <= c.b.x ==> CutMax(CutMin(c, ys.min), ys.max).b.x <= c.b.x
    ensures c.a.x > c.b.x && !(ys.min <= c.b.y <= ys.max) ==> CutMax(CutMin(c, ys.min), ys.max).b.x > c.b.x
  {
    var d := CutMax(CutMin(c, ys.min), ys.max);
    var u, v := Levelled(c, ys);
    assert Mix(c.a.x, c.b.x, 1.0) == c.b.x && Mix(c.a.y, c.b.y, 1.0) == c.b.y;
    if c.a.x <= c.b.x {
      MixMonotone(c.a.x, c.b.x, v, 1.0);
    } else if v < 1.0 {
      MixBefore(c.a.x, c.b.x, v);
    }
    assert v == 1.0 ==> Clamp(Mix(c.a.y, c.b.y, 1.0), ys) == Mix(c.a.y, c.b.y, 1.0);
  }

  /** The area is closed straight below its last vertex, except after a segment that runs to
      the left and leaves the y range. */
  lemma ClosedBelowLastVertex(c: Segment, ys: Axis)
    requires ys.min <= ys.max
    ensures var vs := Outline(c, ys);
      LastX(c, ys) == vs[|vs| - 1].x <==> c.a.x <= c.b.x || !Mixed(c, ys) || ys.min <= c.b.y <= ys.max
  {
    if Mixed(c, ys) {
      EndCut(c, ys);
    }
  }

  /** A steep segment that runs to the left and leaves the y range at the top. */
  lemma ClosedElsewhereExample()
    ensures var c, ys := Segment(Point(2.0, 0.0), Point(0.0, 10.0)), Axis(0.0, 5.0, 1.0);
            var vs := Outline(c, ys);
      LastX(c, ys) != vs[|vs| - 1].x
  {
    ClosedBelowLastVertex(Segment(Point(2.0, 0.0), Point(0.0, 10.0)), Axis(0.0, 5.0, 1.0));
  }

  /** The outline for one pair of points, whichever way it runs: none if the x axis shows no
      point of the line between them, and otherwise a path that runs one way inside the
      axes and is the line, as far as the x axis shows it, with its y values clamped.
      `lastX` is where the area would be closed. */
  method AreaSegment(s: Segment, xs: Axis, ys: Axis) returns (vs: Option<seq<Point>>, lastX: real)
    requires ys.min <= ys.max
    ensures vs.None? <==> forall p | On(p, s) :: !InRange(p, xs)
    ensures vs.Some? ==> Outlines(vs.value, s, xs, ys)
    ensures vs.None? <==> ClippedX(s, xs).None?
    ensures vs.Some? ==> vs.value == Outline(ClippedX(s, xs).value, ys) && lastX == LastX(ClippedX(s, xs).value, ys)
  {
    hide Outlines, On, CutMin, CutMax, ClipXMin, ClipXMax;
    OutlineOfSegment(s, xs, ys);
    var c := ClippedX(s, xs);
    if c.None? {
      return None, 0.0;
    }
    var cut := c.value;
    var x1old, x2old := cut.a.x, cut.b.x;
    if cut.a.y >= ys.max && cut.b.y >= ys.max {
      return Some([Point(x1old, ys.max), Point(x2old, ys.max)]), x2old;
    } else if cut.a.y <= ys.min && cut.b.y <= ys.min {
      return Some([Point(x1old, ys.min), Point(x2old, ys.min)]), x2old;
    }
    cut := CutMin(cut, ys.min);
    cut := CutMax(cut, ys.max);
    var path := [];
    if cut.a.x != x1old {
      var top := if cut.a.y <= ys.min then ys.min else ys.max;
      path := path + [Point(x1old, top), Point(cut.a.x, top)];
    }
    path := path + [cut.a, cut.b];
    if cut.b.x != x2old {
      var top := if cut.b.y <= ys.min then ys.min else ys.max;
      path := path + [Point(cut.b.x, top), Point(x2old, top)];
    }
    assert path == Outline(c.value, ys);
    vs, lastX := Some(path), Max(cut.b.x, x2old);
  }
}

/** Filling the area below a data series.  The outlines of neighbouring pairs of points are
strung together into one path; a gap in the data closes it along the bottom and a new one is
opened. */
module PlotAreas {
  import opened Wrappers
  import opened Clip
  import opened PlotArea
  import PlotLine

  // ----- Ends of outlines -----

  /** What the axes make of a point: itself, pressed into the y range, or a point on the side
      of the axes on which it is. */
  predicate Meets(q: Point, p: Point, xs: Axis, ys: Axis) {
    && (InRange(p, xs) ==> q == Pressed(p, ys))
    && (p.x < xs.min ==> q.x == xs.min)
    && (p.x > xs.max ==> q.x == xs.max)
  }

  lemma OutlineEnds(c: Segment, ys: Axis)
    requires ys.min <= ys.max
    ensures var vs := Outline(c, ys);
      |vs| >= 2 && vs[0] == Pressed(c.a, ys) && vs[|vs| - 1] == Pressed(c.b, ys)
  {
    if Mixed(c, ys) {
      var d := CutMax(CutMin(c, ys.min), ys.max);
      var u, v := Levelled(c, ys);
      EdgesLevel(c, ys, d, u, v);
      assert Mix(c.a.y, c.b.y, 0.0) == c.a.y && Mix(c.a.y, c.b.y, 1.0) == c.b.y;
      assert Clamp(Mix(c.a.y, c.b.y, 0.0), ys) == d.a.y && Clamp(Mix(c.a.y, c.b.y, 1.0), ys) == d.b.y;
    }
  }

  lemma ClippedXEnds(s: Segment, xs: Axis, ys: Axis)
    requires xs.min <= xs.max
    ensures ClippedX(s, xs).Some? ==>
              Meets(Pressed(ClippedX(s, xs).value.a, ys), s.a, xs, ys) && Meets(Pressed(ClippedX(s, xs).value.b, ys), s.b, xs, ys)
    ensures ClippedX(s, xs).None? ==> (s.a.x < xs.min && s.b.x < xs.min) || (s.a.x > xs.max && s.b.x > xs.max)
  {
    hide Meet;
  }

  /** The outline for a pair of points starts and ends where the axes put the points, so two
      neighbouring outlines share a vertex if the point between them is in the x range. */
  lemma OutlineMeets(s: Segment, xs: Axis, ys: Axis)
    requires xs.min <= xs.max && ys.min <= ys.max && ClippedX(s, xs).Some?
    ensures var vs := Outline(ClippedX(s, xs).value, ys);
      |vs| >= 2 && Meets(vs[0], s.a, xs, ys) && Meets(vs[|vs| - 1], s.b, xs, ys)
  {
    hide Outline, ClippedX, Pressed, Meets;
    OutlineEnds(ClippedX(s, xs).value, ys);
    ClippedXEnds(s, xs, ys);
  }

  // ----- Paths -----

  lemma PathConcat(a: seq<Point>, b: seq<Point>, q: Point)
    requires a != [] && b != []
    ensures OnPath(q, a + b) <==> OnPath(q, a) || OnPath(q, b) || On(q, Segment(a[|a| - 1], b[0]))
  {
    hide On;
    var vs := a + b;
    if OnPath(q, vs) {
      var i :| 0 <= i < |vs| - 1 && On(q, Segment(vs[i], vs[i + 1]));
      if i >= |a| {
        assert vs[i] == b[i - |a|] && vs[i + 1] == b[i - |a| + 1];
      }
    }
    if i :| 0 <= i < |a| - 1 && On(q, Segment(a[i], a[i + 1])) {
      assert vs[i] == a[i] && vs[i + 1] == a[i + 1];
    }
    if i :| 0 <= i < |b| - 1 && On(q, Segment(b[i], b[i + 1])) {
      assert vs[i + |a|] == b[i] && vs[i + |a| + 1] == b[i + 1];
    }
    if On(q, Segment(a[|a| - 1], b[0])) {
      assert vs[|a| - 1] == a[|a| - 1] && vs[|a|] == b[0];
    }
  }

  lemma LastOnPath(vs: seq<Point>)
    requires |vs| >= 2
    ensures OnPath(vs[0], vs) && OnPath(vs[|vs| - 1], vs)
  {
    EndsOn(Segment(vs[0], vs[1]));
    EndsOn(Segment(vs[|vs| - 2], vs[|vs| - 1]));
  }

  // ----- What the areas should be -----

  /** A point of the line between the data points at `i - 1` and `i` that the x axis shows. */
  ghost predicate Shown(data: seq<Option<Point>>, xs: Axis, i: nat, p: Point) {
    && 0 < i < |data| && data[i - 1].Some? && data[i].Some?
    && On(p, Segment(data[i - 1].value, data[i].value)) && InRange(p, xs)
  }

  /** Where an outline may be: on the data's line with its y values pressed into the range, or
      on the left or the right side of the axes. */
  ghost predicate Allowed(data: seq<Option<Point>>, xs: Axis, ys: Axis, q: Point) {
    && Inside(q, xs, ys)
    && (q.x == xs.min || q.x == xs.max || exists i, p :: Shown(data, xs, i, p) && q == Pressed(p, ys))
  }

  ghost predicate AllAllowed(data: seq<Option<Point>>, xs: Axis, ys: Axis, vs: seq<Point>) {
    forall q | OnPath(q, vs) :: Allowed(data, xs, ys, q)
  }

  /** The x values of neighbouring points do not fall. */
  predicate RunsRight(data: seq<Option<Point>>) {
    forall i | 0 < i < |data| && data[i - 1].Some? && data[i].Some? :: data[i - 1].value.x <= data[i].value.x
  }

  /** The path without its ends on the bottom. */
  function Upper(fill: seq<Point>): seq<Point>
    requires |fill| >= 2
  {
    fill[1..|fill| - 1]
  }

  /** A filled path goes up from the bottom, along an outline, and down to the bottom again,
      straight down if the data runs to the right. */
  ghost predicate Proper(data: seq<Option<Point>>, xs: Axis, ys: Axis, fill: seq<Point>) {
    && |fill| >= 4
    && fill[0] == Point(fill[1].x, Clamp(0.0, ys)) && fill[|fill| - 1].y == Clamp(0.0, ys)
    && (RunsRight(data) ==> fill[|fill| - 1].x == fill[|fill| - 2].x)
    && AllAllowed(data, xs, ys, Upper(fill))
  }

  /** A path that has been opened and is to be continued from the data point `cur`. */
  ghost predicate Open(data: seq<Option<Point>>, xs: Axis, ys: Axis, path: seq<Point>, cur: Option<Point>, lastX: real) {
    && |path| >= 3 && cur.Some?
    && path[0] == Point(path[1].x, Clamp(0.0, ys))
    && Meets(path[|path| - 1], cur.value, xs, ys)
    && (RunsRight(data) ==> lastX == path[|path| - 1].x)
    && AllAllowed(data, xs, ys, path[1..])
  }

  /** The point is on the outline of a filled area, or of the one that is open. */
  ghost predicate Traced(fills: seq<seq<Point>>, path: seq<Point>, q: Point) {
    || (exists fill :: fill in fills && |fill| >= 2 && OnPath(q, Upper(fill)))
    || (path != [] && OnPath(q, path[1..]))
  }

  ghost predicate TracedUpTo(data: seq<Option<Point>>, xs: Axis, ys: Axis, fills: seq<seq<Point>>, path: seq<Point>, n: nat) {
    forall i: nat, p | i < n && Shown(data, xs, i, p) :: Traced(fills, path, Pressed(p, ys))
  }

  // ----- One turn -----

  lemma OutlineAllowed(data: seq<Option<Point>>, xs: Axis, ys: Axis, i: nat, vs: seq<Point>)
    requires 0 < i < |data| && data[i - 1].Some? && data[i].Some?
    requires Outlines(vs, Segment(data[i - 1].value, data[i].value), xs, ys)
    ensures AllAllowed(data, xs, ys, vs)
    ensures forall p | Shown(data, xs, i, p) :: OnPath(Pressed(p, ys), vs)
  {
    hide On, OnPath, Pressed, Inside;
    forall q | OnPath(q, vs)
      ensures Allowed(data, xs, ys, q)
    {
      var p :| On(p, Segment(data[i - 1].value, data[i].value)) && InRange(p, xs) && q == Pressed(p, ys);
      assert Shown(data, xs, i, p);
    }
  }

  /** Between two outlines the path stays where it is, or goes along a side of the axes. */
  lemma JoinAllowed(data: seq<Option<Point>>, xs: Axis, ys: Axis, a: Point, b: Point, p: Point, q: Point)
    requires Allowed(data, xs, ys, a) && Allowed(data, xs, ys, b)
    requires Meets(a, p, xs, ys) && Meets(b, p, xs, ys) && On(q, Segment(a, b))
    ensures Allowed(data, xs, ys, q)
  {
    if InRange(p, xs) {
      PointOn(q, a);
    } else {
      var t: real :| 0.0 <= t <= 1.0 && q == At(Segment(a, b), t);
      assert Mix(a.x, a.x, t) == a.x;
      MixAbove(a.y, b.y, ys.min, t);
      MixAbove(-a.y, -b.y, -ys.max, t);
      assert Mix(-a.y, -b.y, t) == -Mix(a.y, b.y, t);
    }
  }

  lemma AllowedConcat(data: seq<Option<Point>>, xs: Axis, ys: Axis, a: seq<Point>, b: seq<Point>, p: Point)
    requires |a| >= 2 && |b| >= 2 && AllAllowed(data, xs, ys, a) && AllAllowed(data, xs, ys, b)
    requires Meets(a[|a| - 1], p, xs, ys) && Meets(b[0], p, xs, ys)
    ensures AllAllowed(data, xs, ys, a + b)
  {
    hide On, OnPath, Allowed, Meets;
    LastOnPath(a);
    LastOnPath(b);
    forall q | OnPath(q, a + b)
      ensures Allowed(data, xs, ys, q)
    {
      PathConcat(a, b, q);
      if On(q, Segment(a[|a| - 1], b[0])) {
        JoinAllowed(data, xs, ys, a[|a| - 1], b[0], p, q);
      }
    }
  }

  /** The path with one more outline. */
  function Continued(path: seq<Point>, vs: seq<Point>, ys: Axis): seq<Point>
    requires vs != []
  {
    (if path == [] then [Point(vs[0].x, Clamp(0.0, ys))] else path) + vs
  }

  /** The data point at `i` is drawn with the outline `vs`. */
  ghost predicate DrawnWith(data: seq<Option<Point>>, xs: Axis, ys: Axis, i: nat, vs: seq<Point>, lastX: real) {
    && 0 < i < |data| && data[i - 1].Some? && data[i].Some?
    && var s := Segment(data[i - 1].value, data[i].value);
       && ClippedX(s, xs).Some?
       && vs == Outline(ClippedX(s, xs).value, ys) && lastX == LastX(ClippedX(s, xs).value, ys)
  }

  lemma DrawnWithIs(data: seq<Option<Point>>, xs: Axis, ys: Axis, i: nat, vs: seq<Point>, lastX: real)
    requires xs.min <= xs.max && ys.min <= ys.max && DrawnWith(data, xs, ys, i, vs, lastX)
    ensures |vs| >= 2 && Meets(vs[0], data[i - 1].value, xs, ys) && Meets(vs[|vs| - 1], data[i].value, xs, ys)
    ensures AllAllowed(data, xs, ys, vs)
    ensures forall p | Shown(data, xs, i, p) :: OnPath(Pressed(p, ys), vs)
    ensures RunsRight(data) ==> lastX == vs[|vs| - 1].x
  {
    hide Meets, AllAllowed, Shown, OnPath, Pressed, Outline, LastX, ClippedX, Outlines;
    var s := Segment(data[i - 1].value, data[i].value);
    OutlineMeets(s, xs, ys);
    OutlineOfSegment(s, xs, ys);
    OutlineAllowed(data, xs, ys, i, vs);
    if RunsRight(data) {
      ClippedXDirection(s, xs);
      ClosedBelowLastVertex(ClippedX(s, xs).value, ys);
    }
  }

  lemma OpenContinued(data: seq<Option<Point>>, xs: Axis, ys: Axis, i: nat, path: seq<Point>, before: real, vs: seq<Point>, lastX: real)
    requires xs.min <= xs.max && ys.min <= ys.max && DrawnWith(data, xs, ys, i, vs, lastX)
    requires path != [] ==> Open(data, xs, ys, path, data[i - 1], before)
    ensures vs != [] && Open(data, xs, ys, Continued(path, vs, ys), data[i], lastX)
    ensures forall p | Shown(data, xs, i, p) :: OnPath(Pressed(p, ys), Continued(path, vs, ys)[1..])
    ensures path != [] ==> forall q | OnPath(q, path[1..]) :: OnPath(q, Continued(path, vs, ys)[1..])
  {
    hide Meets, AllAllowed, Shown, OnPath, Pressed, Clamp, Outline, LastX, ClippedX;
    DrawnWithIs(data, xs, ys, i, vs, lastX);
    if path == [] {
      assert Continued(path, vs, ys)[1..] == vs;
    } else {
      assert Continued(path, vs, ys)[1..] == path[1..] + vs;
      AllowedConcat(data, xs, ys, path[1..], vs, data[i - 1].value);
      forall q
        ensures OnPath(q, path[1..]) || OnPath(q, vs) ==> OnPath(q, path[1..] + vs)
      {
        PathConcat(path[1..], vs, q);
      }
    }
  }

  lemma TracedContinued(data: seq<Option<Point>>, xs: Axis, ys: Axis, i: nat, fills: seq<seq<Point>>, path: seq<Point>, next: seq<Point>)
    requires TracedUpTo(data, xs, ys, fills, path, i) && next != []
    requires path != [] ==> forall q | OnPath(q, path[1..]) :: OnPath(q, next[1..])
    requires forall p | Shown(data, xs, i, p) :: OnPath(Pressed(p, ys), next[1..])
    ensures TracedUpTo(data, xs, ys, fills, next, i + 1)
  {
    hide Shown, OnPath, Pressed;
    forall k: nat, p | k < i + 1 && Shown(data, xs, k, p)
      ensures Traced(fills, next, Pressed(p, ys))
    {
      assert k < i ==> Traced(fills, path, Pressed(p, ys));
    }
  }

  lemma Closed(data: seq<Option<Point>>, xs: Axis, ys: Axis, path: seq<Point>, cur: Option<Point>, lastX: real)
    requires Open(data, xs, ys, path, cur, lastX)
    ensures Proper(data, xs, ys, path + [Point(lastX, Clamp(0.0, ys))])
    ensures Upper(path + [Point(lastX, Clamp(0.0, ys))]) == path[1..]
  {
    hide AllAllowed, Clamp, Meets;
  }

  lemma TracedClosed(data: seq<Option<Point>>, xs: Axis, ys: Axis, i: nat, fills: seq<seq<Point>>, path: seq<Point>, fill: seq<Point>)
    requires TracedUpTo(data, xs, ys, fills, path, i) && |fill| >= 2 && path != [] && Upper(fill) == path[1..]
    ensures TracedUpTo(data, xs, ys, fills + [fill], [], i)
  {
    hide Shown, OnPath, Pressed, Upper;
    var more := fills + [fill];
    forall k: nat, p | k < i && Shown(data, xs, k, p)
      ensures Traced(more, [], Pressed(p, ys))
    {
      var q := Pressed(p, ys);
      assert Traced(fills, path, q);
      assert fill in more;
      if f :| f in fills && |f| >= 2 && OnPath(q, Upper(f)) {
        assert f in more;
      }
    }
  }

  /** No point of the data is shown at `i`. */
  lemma TracedSkipped(data: seq<Option<Point>>, xs: Axis, ys: Axis, i: nat, fills: seq<seq<Point>>, path: seq<Point>)
    requires TracedUpTo(data, xs, ys, fills, path, i) && forall p :: !Shown(data, xs, i, p)
    ensures TracedUpTo(data, xs, ys, fills, path, i + 1)
  {
    hide Shown, OnPath, Pressed, Traced;
  }

  lemma OpenSkipped(data: seq<Option<Point>>, xs: Axis, ys: Axis, i: nat, path: seq<Point>, lastX: real)
    requires xs.min <= xs.max && 0 < i < |data| && data[i - 1].Some? && data[i].Some?
    requires ClippedX(Segment(data[i - 1].value, data[i].value), xs).None?
    ensures Open(data, xs, ys, path, data[i - 1], lastX) ==> Open(data, xs, ys, path, data[i], lastX)
    ensures forall p :: !Shown(data, xs, i, p)
  {
    hide AllAllowed, Clamp, On, ClippedX, Pressed;
    ClippedXEnds(Segment(data[i - 1].value, data[i].value), xs, ys);
    ClippedXExact(Segment(data[i - 1].value, data[i].value), xs);
  }

  lemma GapShowsNothing(data: seq<Option<Point>>, xs: Axis, i: nat)
    requires i < |data| && (i == 0 || data[i - 1].None? || data[i].None?)
    ensures forall p :: !Shown(data, xs, i, p)
  {
  }

  lemma ProperLength(data: seq<Option<Point>>, xs: Axis, ys: Axis, fill: seq<Point>)
    requires Proper(data, xs, ys, fill)
    ensures |fill| >= 4
  {
  }

  // ----- The series -----

  /** How many of the first `n` data points are gaps. */
  function Gaps(data: seq<Option<Point>>, n: nat): nat
    requires n <= |data|
  {
    if n == 0 then 0 else Gaps(data, n - 1) + if data[n - 1].None? then 1 else 0
  }

  /** The areas filled, with the open one closed too if there is one. */
  function WithClosed(fills: seq<seq<Point>>, path: seq<Point>, lastX: real, ys: Axis): seq<seq<Point>> {
    if path == [] then fills else fills + [path + [Point(lastX, Clamp(0.0, ys))]]
  }

  /** The state before the data point at `i`, with `cur` the one before it. */
  ghost predicate Drawing(data: seq<Option<Point>>, xs: Axis, ys: Axis, i: nat,
                          fills: seq<seq<Point>>, path: seq<Point>, cur: Option<Point>, lastX: real) {
    && i <= |data| && cur == (if i == 0 then None else data[i - 1])
    && |fills| <= Gaps(data, i)
    && (forall fill | fill in fills :: Proper(data, xs, ys, fill))
    && (path != [] ==> Open(data, xs, ys, path, cur, lastX))
    && TracedUpTo(data, xs, ys, fills, path, i)
  }

  lemma DrawingStart(data: seq<Option<Point>>, xs: Axis, ys: Axis)
    ensures Drawing(data, xs, ys, 0, [], [], None, 0.0)
  {
  }

  lemma DrawingClosed(data: seq<Option<Point>>, xs: Axis, ys: Axis, i: nat,
                      fills: seq<seq<Point>>, path: seq<Point>, cur: Option<Point>, lastX: real)
    requires Drawing(data, xs, ys, i, fills, path, cur, lastX)
    ensures var closed := WithClosed(fills, path, lastX, ys);
      && (forall fill | fill in closed :: Proper(data, xs, ys, fill))
      && TracedUpTo(data, xs, ys, closed, [], i)
      && |closed| <= Gaps(data, i) + if path == [] then 0 else 1
    ensures path != [] ==> cur.Some?
  {
    hide Proper, TracedUpTo, Clamp;
    if path != [] {
      var fill := path + [Point(lastX, Clamp(0.0, ys))];
      Closed(data, xs, ys, path, cur, lastX);
      ProperLength(data, xs, ys, fill);
      TracedClosed(data, xs, ys, i, fills, path, fill);
    }
  }

  lemma DrawingGap(data: seq<Option<Point>>, xs: Axis, ys: Axis, i: nat,
                   fills: seq<seq<Point>>, path: seq<Point>, cur: Option<Point>, lastX: real)
    requires Drawing(data, xs, ys, i, fills, path, cur, lastX) && i < |data| && (cur.None? || data[i].None?)
    ensures Drawing(data, xs, ys, i + 1, WithClosed(fills, path, lastX, ys), [], data[i], lastX)
  {
    hide Proper, Open, TracedUpTo, WithClosed;
    DrawingClosed(data, xs, ys, i, fills, path, cur, lastX);
    GapShowsNothing(data, xs, i);
    TracedSkipped(data, xs, ys, i, WithClosed(fills, path, lastX, ys), []);
  }

  lemma DrawingSkipped(data: seq<Option<Point>>, xs: Axis, ys: Axis, i: nat,
                       fills: seq<seq<Point>>, path: seq<Point>, cur: Option<Point>, lastX: real)
    requires xs.min <= xs.max
    requires Drawing(data, xs, ys, i, fills, path, cur, lastX) && i < |data| && cur.Some? && data[i].Some?
    requires ClippedX(Segment(cur.value, data[i].value), xs).None?
    ensures Drawing(data, xs, ys, i + 1, fills, path, data[i], lastX)
  {
    hide Proper, Open, TracedUpTo, ClippedX;
    OpenSkipped(data, xs, ys, i, path, lastX);
    TracedSkipped(data, xs, ys, i, fills, path);
  }

  lemma DrawingOutline(data: seq<Option<Point>>, xs: Axis, ys: Axis, i: nat,
                       fills: seq<seq<Point>>, path: seq<Point>, cur: Option<Point>, before: real, vs: seq<Point>, lastX: real)
    requires xs.min <= xs.max && ys.min <= ys.max
    requires Drawing(data, xs, ys, i, fills, path, cur, before) && DrawnWith(data, xs, ys, i, vs, lastX)
    ensures vs != [] && Drawing(data, xs, ys, i + 1, fills, Continued(path, vs, ys), data[i], lastX)
  {
    hide Proper, Open, TracedUpTo, Clamp, OnPath, Shown, Outline, LastX, ClippedX;
    OpenContinued(data, xs, ys, i, path, before, vs, lastX);
    TracedContinued(data, xs, ys, i, fills, path, Continued(path, vs, ys));
  }

  // ----- How a path is strung together -----

  /** The pair of points that ends at `i` has an outline. */
  predicate Drawn(data: seq<Option<Point>>, xs: Axis, i: nat) {
    && 0 < i < |data| && data[i - 1].Some? && data[i].Some?
    && ClippedX(Segment(data[i - 1].value, data[i].value), xs).Some?
  }

  /** The part of the line of that pair that the x axis shows. */
  function Piece(data: seq<Option<Point>>, xs: Axis, i: nat): Segment
    requires Drawn(data, xs, i)
  {
    ClippedX(Segment(data[i - 1].value, data[i].value), xs).value
  }

  function OutlineAt(data: seq<Option<Point>>, xs: Axis, ys: Axis, i: nat): seq<Point> {
    if Drawn(data, xs, i) then Outline(Piece(data, xs, i), ys) else []
  }

  /** The outlines of the pairs from `a` to `b`, in this order. */
  function Strung(data: seq<Option<Point>>, xs: Axis, ys: Axis, a: nat, b: nat): seq<Point>
    decreases b
  {
    if b <= a then [] else Strung(data, xs, ys, a, b - 1) + OutlineAt(data, xs, ys, b)
  }

  /** No gap from `a` to `b`, and one before `a` or nothing. */
  predicate Unbroken(data: seq<Option<Point>>, a: nat, b: nat) {
    && a <= b < |data| && (a == 0 || data[a - 1].None?)
    && forall k | a <= k <= b :: data[k].Some?
  }

  /** The last pair from `a` to `b` that has an outline. */
  predicate LastDrawn(data: seq<Option<Point>>, xs: Axis, a: nat, b: nat, i: nat) {
    a < i <= b && Drawn(data, xs, i) && forall j | i < j <= b :: !Drawn(data, xs, j)
  }

  /** An area that ends with this piece is closed straight below its last vertex. */
  predicate Straight(c: Segment, ys: Axis) {
    c.a.x <= c.b.x || !Mixed(c, ys) || ys.min <= c.b.y <= ys.max
  }

  lemma {:induction false} StrungEnd(data: seq<Option<Point>>, xs: Axis, ys: Axis, a: nat, b: nat, i: nat)
    requires ys.min <= ys.max && LastDrawn(data, xs, a, b, i)
    ensures var vs := Strung(data, xs, ys, a, b);
            var last := Outline(Piece(data, xs, i), ys);
      |vs| >= 2 && |last| >= 2 && vs[|vs| - 1] == last[|last| - 1]
    decreases b
  {
    hide Outline, ClippedX;
    OutlineEnds(Piece(data, xs, i), ys);
    if b > i {
      StrungEnd(data, xs, ys, a, b - 1, i);
      assert OutlineAt(data, xs, ys, b) == [];
    }
  }

  /** The filled path over the unbroken data from `a` to `b`: all outlines in order, and the
      close below the last of them, at the last pair `i` that has one. */
  ghost predicate Closes(data: seq<Option<Point>>, xs: Axis, ys: Axis, fill: seq<Point>, a: nat, b: nat, i: nat) {
    && Unbroken(data, a, b) && (b + 1 == |data| || data[b + 1].None?)
    && LastDrawn(data, xs, a, b, i)
    && |fill| >= 4 && Upper(fill) == Strung(data, xs, ys, a, b)
    && fill[|fill| - 1] == Point(LastX(Piece(data, xs, i), ys), Clamp(0.0, ys))
    && (fill[|fill| - 1].x == fill[|fill| - 2].x <==> Straight(Piece(data, xs, i), ys))
  }

  ghost predicate Shaped(data: seq<Option<Point>>, xs: Axis, ys: Axis, fill: seq<Point>) {
    exists a, b, i :: Closes(data, xs, ys, fill, a, b, i)
  }

  /** Before the data point at `n`, with unbroken data since `a`: the path strings together
      all outlines since then, and was last drawn at `i`. */
  ghost predicate Tracking(data: seq<Option<Point>>, xs: Axis, ys: Axis, n: nat, path: seq<Point>, a: nat, i: nat, lastX: real) {
    && n <= |data|
    && (n > 0 && data[n - 1].Some? ==> Unbroken(data, a, n - 1))
    && (n > 0 && data[n - 1].Some? && path == [] ==> Strung(data, xs, ys, a, n - 1) == [])
    && (path != [] ==>
          && n > 0 && data[n - 1].Some?
          && path[1..] == Strung(data, xs, ys, a, n - 1)
          && LastDrawn(data, xs, a, n - 1, i) && lastX == LastX(Piece(data, xs, i), ys))
  }

  lemma TrackingGap(data: seq<Option<Point>>, xs: Axis, ys: Axis, n: nat, i: nat, lastX: real)
    requires n < |data| && (n == 0 || data[n - 1].None? || data[n].None?)
    ensures Tracking(data, xs, ys, n + 1, [], n, i, lastX)
  {
  }

  lemma TrackingSkipped(data: seq<Option<Point>>, xs: Axis, ys: Axis, n: nat, path: seq<Point>, a: nat, i: nat, lastX: real)
    requires Tracking(data, xs, ys, n, path, a, i, lastX)
    requires 0 < n < |data| && data[n - 1].Some? && data[n].Some? && !Drawn(data, xs, n)
    ensures Tracking(data, xs, ys, n + 1, path, a, i, lastX)
  {
    hide Drawn, LastX;
    assert OutlineAt(data, xs, ys, n) == [];
  }

  lemma TrackingOutline(data: seq<Option<Point>>, xs: Axis, ys: Axis, n: nat, path: seq<Point>, a: nat, i: nat, before: real)
    requires ys.min <= ys.max && Tracking(data, xs, ys, n, path, a, i, before) && Drawn(data, xs, n)
    ensures var vs := OutlineAt(data, xs, ys, n);
      vs != [] && Tracking(data, xs, ys, n + 1, Continued(path, vs, ys), a, n, LastX(Piece(data, xs, n), ys))
  {
    var vs := OutlineAt(data, xs, ys, n);
    OutlineEnds(Piece(data, xs, n), ys);
    assert data[n - 1].Some? && data[n].Some?;
    hide Drawn, LastX, Outline, Clamp;
    assert Continued(path, vs, ys)[1..] == (if path == [] then [] else path[1..]) + vs;
  }

  lemma TrackingClosed(data: seq<Option<Point>>, xs: Axis, ys: Axis, n: nat, path: seq<Point>, a: nat, i: nat, lastX: real)
    requires ys.min <= ys.max && Tracking(data, xs, ys, n, path, a, i, lastX)
    requires path != [] && (n == |data| || data[n].None?)
    ensures Shaped(data, xs, ys, path + [Point(lastX, Clamp(0.0, ys))])
  {
    hide Drawn, LastX, Outline, Clamp, Mixed;
    var fill := path + [Point(lastX, Clamp(0.0, ys))];
    StrungEnd(data, xs, ys, a, n - 1, i);
    ClosedBelowLastVertex(Piece(data, xs, i), ys);
    assert Upper(fill) == path[1..];
    assert fill[|fill| - 2] == path[1..][|path| - 2];
    assert Closes(data, xs, ys, fill, a, n - 1, i);
  }

  lemma TrackingStart(data: seq<Option<Point>>, xs: Axis, ys: Axis)
    ensures Tracking(data, xs, ys, 0, [], 0, 0, 0.0)
  {
  }

  lemma TrackingOpen(data: seq<Option<Point>>, xs: Axis, ys: Axis, n: nat, path: seq<Point>, a: nat, i: nat, lastX: real)
    requires Tracking(data, xs, ys, n, path, a, i, lastX) && path != []
    ensures n > 0 && data[n - 1].Some?
  {
  }

  // ----- On the canvas -----

  /** The vertices of a path on the canvas. */
  function Placed(f: PlotLine.Frame, vs: seq<Point>): seq<Point> {
    if vs == [] then [] else [PlotLine.Place(f, vs[0])] + Placed(f, vs[1..])
  }

  lemma {:induction false} PlacedAt(f: PlotLine.Frame, vs: seq<Point>)
    ensures |Placed(f, vs)| == |vs|
    ensures forall i | 0 <= i < |vs| :: Placed(f, vs)[i] == PlotLine.Place(f, vs[i])
  {
    hide PlotLine.Place;
    if vs != [] {
      PlacedAt(f, vs[1..]);
    }
  }

  lemma {:induction false} PlacedConcat(f: PlotLine.Frame, a: seq<Point>, b: seq<Point>)
    ensures Placed(f, a + b) == Placed(f, a) + Placed(f, b)
    decreases |a|
  {
    hide PlotLine.Place;
    if a == [] {
      assert a + b == b;
    } else {
      PlacedConcat(f, a[1..], b);
      assert (a + b)[1..] == a[1..] + b;
    }
  }

  /** The path on the canvas goes through exactly the placed points of the path. */
  lemma PlacedPath(f: PlotLine.Frame, vs: seq<Point>, q: Point)
    ensures OnPath(q, Placed(f, vs)) <==> exists p :: OnPath(p, vs) && q == PlotLine.Place(f, p)
  {
    hide PlotLine.Place, On;
    var ws := Placed(f, vs);
    PlacedAt(f, vs);
    if OnPath(q, ws) {
      var i :| 0 <= i < |ws| - 1 && On(q, Segment(ws[i], ws[i + 1]));
      PlotLine.PlacedOn(f, Segment(vs[i], vs[i + 1]), q);
      var p :| On(p, Segment(vs[i], vs[i + 1])) && q == PlotLine.Place(f, p);
      assert OnPath(p, vs);
    }
    if p :| OnPath(p, vs) && q == PlotLine.Place(f, p) {
      var i :| 0 <= i < |vs| - 1 && On(p, Segment(vs[i], vs[i + 1]));
      PlotLine.PlacedOn(f, Segment(vs[i], vs[i + 1]), q);
      assert On(q, Segment(ws[i], ws[i + 1]));
    }
  }

  lemma PlacedNone(f: PlotLine.Frame)
    ensures Placed(f, []) == []
  {
  }

  lemma PlacedOne(f: PlotLine.Frame, p: Point)
    ensures Placed(f, [p]) == [PlotLine.Place(f, p)]
  {
    hide PlotLine.Place;
    assert [p][1..] == [];
  }

  /** The paths on the canvas are the fills, placed. */
  ghost predicate AllPlaced(f: PlotLine.Frame, drawn: seq<seq<Point>>, fills: seq<seq<Point>>) {
    |drawn| == |fills| && forall k | 0 <= k < |fills| :: drawn[k] == Placed(f, fills[k])
  }

  lemma PlacedClosed(f: PlotLine.Frame, drawn: seq<seq<Point>>, fills: seq<seq<Point>>, path: seq<Point>, end: Point)
    requires AllPlaced(f, drawn, fills)
    ensures AllPlaced(f, drawn + [Placed(f, path) + [PlotLine.Place(f, end)]], fills + [path + [end]])
  {
    hide PlotLine.Place;
    PlacedConcat(f, path, [end]);
    assert [end][1..] == [];
  }

  /** Fills the areas of the series.  `drawn` are the paths on the canvas and `fills` the same
      in data coordinates.  Their outlines go through every point of the data's line that the x
      axis shows, with its y value pressed into the range, and otherwise only along the left
      and the right side of the axes.  Only a gap in the data breaks an area, and along each
      area the outlines come in the order of the data. */
  method DrawArea(data: seq<Option<Point>>, xs: Axis, ys: Axis) returns (drawn: seq<seq<Point>>, ghost fills: seq<seq<Point>>)
    requires xs.min <= xs.max && ys.min <= ys.max
    ensures AllPlaced(PlotLine.Frame(xs, ys, 0.0, 0.0), drawn, fills)
    ensures forall fill | fill in fills :: Proper(data, xs, ys, fill) && Shaped(data, xs, ys, fill)
    ensures TracedUpTo(data, xs, ys, fills, [], |data|)
    ensures |fills| <= Gaps(data, |data|) + 1
  {
    hide Proper, TracedUpTo, Outlines, Outline, LastX, ClippedX, On, Clamp, Open, Shaped, Tracking, Placed, PlotLine.Place;
    var f := PlotLine.Frame(xs, ys, 0.0, 0.0);
    var bottom := Clamp(0.0, ys);
    var prev: Option<Point>, cur: Option<Point>, lastX := None, None, 0.0;
    var line: seq<Point> := [];
    drawn := [];
    ghost var path: seq<Point>, since, last := [], 0, 0;
    fills := [];
    DrawingStart(data, xs, ys);
    TrackingStart(data, xs, ys);
    PlacedNone(f);
    for i := 0 to |data|
      invariant Drawing(data, xs, ys, i, fills, path, cur, lastX)
      invariant Tracking(data, xs, ys, i, path, since, last, lastX)
      invariant forall fill | fill in fills :: Shaped(data, xs, ys, fill)
      invariant AllPlaced(f, drawn, fills) && line == Placed(f, path) && (line == [] <==> path == [])
    {
      prev := cur;
      cur := data[i];
      if prev.None? || cur.None? {
        DrawingGap(data, xs, ys, i, fills, path, prev, lastX);
        TrackingGap(data, xs, ys, i, last, lastX);
        if line != [] {
          TrackingOpen(data, xs, ys, i, path, since, last, lastX);
          TrackingClosed(data, xs, ys, i, path, since, last, lastX);
          PlacedClosed(f, drawn, fills, path, Point(lastX, bottom));
          drawn := drawn + [line + [PlotLine.Place(f, Point(lastX, bottom))]];
          fills := fills + [path + [Point(lastX, bottom)]];
        }
        line, path, since := [], [], i;
        continue;
      }
      var vs, x := AreaSegment(Segment(prev.value, cur.value), xs, ys);
      if vs.None? {
        DrawingSkipped(data, xs, ys, i, fills, path, prev, lastX);
        TrackingSkipped(data, xs, ys, i, path, since, last, lastX);
        continue;
      }
      DrawingOutline(data, xs, ys, i, fills, path, prev, lastX, vs.value, x);
      TrackingOutline(data, xs, ys, i, path, since, last, lastX);
      if line == [] {
        PlacedOne(f, Point(vs.value[0].x, bottom));
        line, path := [PlotLine.Place(f, Point(vs.value[0].x, bottom))], [Point(vs.value[0].x, bottom)];
      }
      PlacedConcat(f, path, vs.value);
      line, path := line + Placed(f, vs.value), path + vs.value;
      lastX, last := x, i;
    }
    DrawingClosed(data, xs, ys, |data|, fills, path, cur, lastX);
    if line != [] {
      TrackingClosed(data, xs, ys, |data|, path, since, last, lastX);
      PlacedClosed(f, drawn, fills, path, Point(lastX, bottom));
      drawn := drawn + [line + [PlotLine.Place(f, Point(lastX, bottom))]];
      fills := fills + [path + [Point(lastX, bottom)]];
    }
  }
}

/**
  Points, bounding boxes, the squared-distance measure, the pressure clamp
  and the web radius shared by live drawing, replay and the soft-web
  planner. Coordinates, pressure and the radius are reals: the canvas
  works in JavaScript doubles, whose rounding and NaN are not modelled.
 */
module Geometry {

  /** A recorded pen sample: position and raw pressure. */
  datatype Point = Point(x: real, y: real, p: real)

  /** A bare position, as handed to the soft-web planner. */
  datatype Pos = Pos(x: real, y: real)

  /** Axis-aligned bounding box kept on every stroke. */
  datatype BBox = BBox(minx: real, miny: real, maxx: real, maxy: real)

  function PosOf(q: Point): Pos
  {
    Pos(q.x, q.y)
  }

  function Min(a: real, b: real): real { if a < b then a else b }

  function Max(a: real, b: real): real { if a < b then b else a }

  /**
    Squared Euclidean distance between the new position and a recorded
    point (`d2`): never negative, and 0 at the same position.
   */
  function D2(a: Pos, b: Point): (r: real)
    ensures r >= 0.0
    ensures a.x == b.x && a.y == b.y ==> r == 0.0
  {
    var dx := a.x - b.x;
    var dy := a.y - b.y;
    SquareNonNeg(dx);
    SquareNonNeg(dy);
    dx * dx + dy * dy
  }

  lemma SquareNonNeg(d: real)
    ensures d * d >= 0.0
  {
    if d < 0.0 {
      assert d * d == (-d) * (-d);
    }
  }

  lemma PositiveProduct(a: real, b: real)
    requires a > 0.0 && b > 0.0
    ensures a * b > 0.0
  {
  }

  /** A point lies inside a box (borders included). */
  predicate Inside(b: BBox, q: Point)
  {
    b.minx <= q.x <= b.maxx && b.miny <= q.y <= b.maxy
  }

  /** Every point of the sequence lies inside the box. */
  predicate Covers(b: BBox, pts: seq<Point>)
  {
    forall i :: 0 <= i < |pts| ==> Inside(b, pts[i])
  }

  /**
    The box is the tight bound of the points: it covers them and each of
    its four sides is touched by some point.
   */
  predicate Tight(b: BBox, pts: seq<Point>)
  {
    && Covers(b, pts)
    && (exists i :: 0 <= i < |pts| && pts[i].x == b.minx)
    && (exists i :: 0 <= i < |pts| && pts[i].y == b.miny)
    && (exists i :: 0 <= i < |pts| && pts[i].x == b.maxx)
    && (exists i :: 0 <= i < |pts| && pts[i].y == b.maxy)
  }

  /** The degenerate box of a single point, as a new stroke starts with. */
  function Seed(q: Point): (b: BBox)
    ensures Tight(b, [q])
    ensures forall r: Point :: Inside(b, r) <==> r.x == q.x && r.y == q.y
  {
    assert [q][0] == q;
    BBox(q.x, q.y, q.x, q.y)
  }

  /**
    The O(1) update when a point is appended: each of the four extrema is
    compared against the new coordinate and replaced when exceeded.
   */
  function Widen(b: BBox, q: Point): (r: BBox)
    ensures Inside(r, q)
    ensures forall s: Point :: Inside(b, s) ==> Inside(r, s)
    ensures r.minx == b.minx || r.minx == q.x
    ensures r.miny == b.miny || r.miny == q.y
    ensures r.maxx == b.maxx || r.maxx == q.x
    ensures r.maxy == b.maxy || r.maxy == q.y
  {
    BBox(if q.x < b.minx then q.x else b.minx,
         if q.y < b.miny then q.y else b.miny,
         if q.x > b.maxx then q.x else b.maxx,
         if q.y > b.maxy then q.y else b.maxy)
  }

  /** Widening a tight box by an appended point yields the tight box of the longer sequence. */
  lemma {:induction false} WidenKeepsTight(b: BBox, pts: seq<Point>, q: Point)
    requires Tight(b, pts)
    ensures Tight(Widen(b, q), pts + [q])
  {
    var r := Widen(b, q);
    var all := pts + [q];
    var n := |pts|;
    assert all[n] == q;
    forall i | 0 <= i < |all|
      ensures Inside(r, all[i])
    {
      if i < n {
        assert all[i] == pts[i];
        assert Inside(b, pts[i]);
      }
    }
    var i0 :| 0 <= i0 < n && pts[i0].x == b.minx;
    var i1 :| 0 <= i1 < n && pts[i1].y == b.miny;
    var i2 :| 0 <= i2 < n && pts[i2].x == b.maxx;
    var i3 :| 0 <= i3 < n && pts[i3].y == b.maxy;
    assert all[i0] == pts[i0] && all[i1] == pts[i1] && all[i2] == pts[i2] && all[i3] == pts[i3];
    var j0 := if r.minx == q.x then n else i0;
    var j1 := if r.miny == q.y then n else i1;
    var j2 := if r.maxx == q.x then n else i2;
    var j3 := if r.maxy == q.y then n else i3;
    assert all[j0].x == r.minx;
    assert all[j1].y == r.miny;
    assert all[j2].x == r.maxx;
    assert all[j3].y == r.maxy;
  }

  /**
    The soft-web planner's cheap rejection test: the position lies outside
    the box grown by the radius on some side. `SkippedIffDisjoint`
    characterises it.
   */
  predicate Skipped(a: Pos, b: BBox, radius: real)
  {
    a.x < b.minx - radius || a.x > b.maxx + radius || a.y < b.miny - radius || a.y > b.maxy + radius
  }

  /**
    The square window of half-side `radius` centred on `a`: the region the
    pre-filter's grown box is compared against.
   */
  predicate InWindow(a: Pos, q: Point, radius: real)
  {
    a.x - radius <= q.x <= a.x + radius && a.y - radius <= q.y <= a.y + radius
  }

  lemma SquareWithin(d: real, radius: real)
    requires radius >= 0.0
    requires d * d <= radius * radius
    ensures -radius <= d <= radius
  {
    if d > radius || d < -radius {
      SquareBeyond(d, radius);
      assert false;
    }
  }

  lemma SquareBeyond(d: real, radius: real)
    requires radius >= 0.0
    requires d > radius || d < -radius
    ensures d * d > radius * radius
  {
    var e := if d < 0.0 then -d else d;
    assert e * e == d * d;
    var g := e - radius;
    PositiveProduct(g, e + radius);
    assert e * e - radius * radius == g * (e + radius);
  }

  /** A point within squared distance radius² lies in the window of half-side radius. */
  lemma DiskInWindow(a: Pos, q: Point, radius: real)
    requires radius >= 0.0
    requires D2(a, q) <= radius * radius
    ensures InWindow(a, q, radius)
  {
    var dx := a.x - q.x;
    var dy := a.y - q.y;
    SquareNonNeg(dx);
    SquareNonNeg(dy);
    assert D2(a, q) == dx * dx + dy * dy;
    SquareWithin(dx, radius);
    SquareWithin(dy, radius);
  }

  /** A box the pre-filter rejects shares no point with the window. */
  lemma SkippedMissesWindow(a: Pos, b: BBox, q: Point, radius: real)
    requires Skipped(a, b, radius) && Inside(b, q)
    ensures !InWindow(a, q, radius)
  {
  }

  /**
    For a radius that is not negative and a box that is not empty, the box
    test rejects exactly the boxes that share no point with the square
    window of half-side `radius` around the position.
   */
  lemma SkippedIffDisjoint(a: Pos, b: BBox, radius: real)
    requires radius >= 0.0 && b.minx <= b.maxx && b.miny <= b.maxy
    ensures Skipped(a, b, radius) <==> forall q: Point :: Inside(b, q) ==> !InWindow(a, q, radius)
  {
    if !Skipped(a, b, radius) {
      var w := Point(Max(b.minx, Min(b.maxx, a.x)), Max(b.miny, Min(b.maxy, a.y)), 0.0);
      assert Inside(b, w) && InWindow(a, w, radius);
    }
  }

  /**
    Soundness of the pre-filter: when the box covers the points and the
    radius is not negative, a rejected box holds no point within squared
    distance radius².
   */
  lemma PrefilterSound(a: Pos, b: BBox, pts: seq<Point>, radius: real)
    requires radius >= 0.0
    requires Covers(b, pts)
    requires Skipped(a, b, radius)
    ensures forall i :: 0 <= i < |pts| ==> D2(a, pts[i]) > radius * radius
  {
    forall i | 0 <= i < |pts|
      ensures D2(a, pts[i]) > radius * radius
    {
      assert Inside(b, pts[i]);
      SkippedMissesWindow(a, b, pts[i], radius);
      if D2(a, pts[i]) <= radius * radius {
        DiskInWindow(a, pts[i], radius);
      }
    }
  }

  /**
    With a negative radius (a slider value the markup would have to allow)
    the shrunken box rejects a stroke whose only point is the new position
    itself, so the pre-filter is unsound there.
   */
  lemma NegativeRadiusDefeatsPrefilter()
    ensures var q := Point(0.0, 0.0, 1.0);
            Covers(Seed(q), [q]) && Skipped(Pos(0.0, 0.0), Seed(q), -10.0)
            && D2(Pos(0.0, 0.0), q) <= (-10.0) * (-10.0)
  {
  }

  const MinPressure: real := 0.05

  /**
    Pressure as the width curve sees it: a reported 0 falls back to 1
    (JavaScript `p||1`), then the value is clamped into [0.05, 1].
   */
  function Clamp(p: real): (c: real)
    ensures MinPressure <= c <= 1.0
    ensures p == 0.0 ==> c == 1.0
    ensures MinPressure <= p <= 1.0 ==> c == p
    ensures p > 1.0 ==> c == 1.0
    ensures p < MinPressure && p != 0.0 ==> c == MinPressure
  {
    var q := if p == 0.0 then 1.0 else p;
    Max(MinPressure, Min(1.0, q))
  }

  /** Clamping twice changes nothing: a clamped pressure is already in range. */
  lemma ClampIdempotent(p: real)
    ensures Clamp(Clamp(p)) == Clamp(p)
  {
  }

  /** Away from the 0 fallback, a harder press never gives a smaller clamped pressure. */
  lemma ClampMonotone(p: real, p': real)
    requires 0.0 < p <= p'
    ensures Clamp(p) <= Clamp(p')
  {
  }

  /** The radius used when the slider gives nothing usable, and the fixed radius of the earlier version. */
  const DefaultRadius: real := 50.0

  /** What `parseFloat` makes of the slider's text. */
  datatype Parsed = NaN | Num(v: real)

  /**
    The radius of one web pass: the parsed slider value, or 50 when it
    parses to NaN or 0 (JavaScript `parseFloat(value) || 50`). It is never
    0, and it is positive whenever the slider value is.
   */
  function EffectiveRadius(slider: Parsed): (r: real)
    ensures r != 0.0
    ensures slider.Num? && slider.v != 0.0 ==> r == slider.v
    ensures r == DefaultRadius <==> slider.NaN? || slider.v == 0.0 || slider.v == DefaultRadius
    ensures slider.Num? && slider.v > 0.0 ==> r > 0.0
  {
    match slider
    case NaN => DefaultRadius
    case Num(v) => if v == 0.0 then DefaultRadius else v
  }
}

/**
  The in-progress stroke record and its data-only updates: `begin` seeds a
  stroke with one point and a degenerate box, `extend` appends a point and
  widens the box in constant time.
 */
module Strokes {
  import opened Geometry

  /** A stroke: its drawing style, its recorded points and its bounding box. */
  datatype Stroke = Stroke(color: string, baseW: real, alpha: real, pts: seq<Point>, bbox: BBox)

  /** A stroke as every operation keeps it: seeded with a point and tightly boxed. */
  predicate WellFormed(s: Stroke)
  {
    |s.pts| >= 1 && Tight(s.bbox, s.pts)
  }

  /** The stroke `begin` creates: one point, the degenerate box of that point. */
  function Begin(color: string, baseW: real, alpha: real, q: Point): (s: Stroke)
    ensures s.pts == [q]
    ensures s.color == color && s.baseW == baseW && s.alpha == alpha
    ensures WellFormed(s)
    ensures forall r: Point :: Inside(s.bbox, r) <==> r.x == q.x && r.y == q.y
  {
    Stroke(color, baseW, alpha, [q], Seed(q))
  }

  /** The last recorded point, the start of the next live segment. */
  function Last(s: Stroke): Point
    requires |s.pts| >= 1
  {
    s.pts[|s.pts| - 1]
  }

  /** The data part of `extend`: append the point and widen the box. */
  function Append(s: Stroke, q: Point): (s': Stroke)
    ensures s'.pts == s.pts + [q]
    ensures s'.color == s.color && s'.baseW == s.baseW && s'.alpha == s.alpha
    ensures Tight(s.bbox, s.pts) ==> Tight(s'.bbox, s'.pts)
    ensures WellFormed(s) ==> WellFormed(s')
  {
    assert Tight(s.bbox, s.pts) ==> Tight(Widen(s.bbox, q), s.pts + [q]) by {
      if Tight(s.bbox, s.pts) {
        WidenKeepsTight(s.bbox, s.pts, q);
      }
    }
    s.(pts := s.pts + [q], bbox := Widen(s.bbox, q))
  }

  /**
    A sequence of `extend` calls, in order: the points are appended in the
    order given and the style never changes.
   */
  function Grow(s: Stroke, qs: seq<Point>): (r: Stroke)
    ensures r.pts == s.pts + qs
    ensures r.color == s.color && r.baseW == s.baseW && r.alpha == s.alpha
    decreases |qs|
  {
    if qs == [] then
      assert s.pts + qs == s.pts;
      s
    else
      assert s.pts + [qs[0]] + qs[1..] == s.pts + qs;
      Grow(Append(s, qs[0]), qs[1..])
  }

  /**
    After `begin` and k calls to `extend`, the stroke holds exactly the k+1
    recorded points in order and its box is the tight bound of all of them.
   */
  lemma {:induction false} GrowRecordsEveryPoint(s: Stroke, qs: seq<Point>)
    requires WellFormed(s)
    ensures Grow(s, qs).pts == s.pts + qs
    ensures |Grow(s, qs).pts| == |s.pts| + |qs|
    ensures WellFormed(Grow(s, qs))
    ensures Grow(s, qs).color == s.color && Grow(s, qs).baseW == s.baseW && Grow(s, qs).alpha == s.alpha
    decreases |qs|
  {
    if qs != [] {
      GrowRecordsEveryPoint(Append(s, qs[0]), qs[1..]);
    }
  }

  /** The stroke drawn by `begin` at `q0` followed by `extend` at each of `qs`. */
  lemma BeginThenExtends(color: string, baseW: real, alpha: real, q0: Point, qs: seq<Point>)
    ensures Grow(Begin(color, baseW, alpha, q0), qs).pts == [q0] + qs
    ensures |Grow(Begin(color, baseW, alpha, q0), qs).pts| == |qs| + 1
    ensures Tight(Grow(Begin(color, baseW, alpha, q0), qs).bbox, [q0] + qs)
  {
    GrowRecordsEveryPoint(Begin(color, baseW, alpha, q0), qs);
  }
}

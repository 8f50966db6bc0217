/**
  The ink plan. Drawing is replaced by emitted segment records: live drawing
  emits one segment per `extend`, and `redrawAll` replays the committed
  strokes as one segment per consecutive pair of points. A segment carries
  the clamped pressure of its later point and the stroke's style; the
  width curve applied to that pressure belongs to the renderer.
 */
module Replay {
  import opened Geometry
  import opened Strokes

  /** One ink segment instruction. */
  datatype Segment = Segment(from: Point, to: Point, press: real, color: string, baseW: real, alpha: real)

  /** The segment from `a` to `b` in the style of `s`, keyed on the later point's pressure. */
  function SegmentTo(s: Stroke, a: Point, b: Point): Segment
  {
    Segment(a, b, Clamp(b.p), s.color, s.baseW, s.alpha)
  }

  /** The segments replay draws for one stroke; strokes of fewer than two points draw nothing. */
  function StrokeSegments(s: Stroke): (r: seq<Segment>)
    ensures |s.pts| < 2 ==> r == []
    ensures |s.pts| >= 2 ==> |r| == |s.pts| - 1
    ensures forall k :: 0 <= k < |r| ==> r[k].from == s.pts[k] && r[k].to == s.pts[k + 1]
    ensures forall k :: 0 <= k < |r| ==> r[k].press == Clamp(s.pts[k + 1].p)
    ensures forall k :: 0 <= k < |r| ==> r[k].color == s.color && r[k].baseW == s.baseW && r[k].alpha == s.alpha
    ensures forall k :: 0 <= k < |r| ==> MinPressure <= r[k].press <= 1.0
  {
    if |s.pts| < 2 then []
    else seq(|s.pts| - 1, k requires 0 <= k < |s.pts| - 1 => SegmentTo(s, s.pts[k], s.pts[k + 1]))
  }

  /** Σ over the strokes of (number of points − 1), strokes under two points counting 0. */
  function SegmentCount(paths: seq<Stroke>): nat
  {
    if paths == [] then 0
    else (if |paths[0].pts| < 2 then 0 else |paths[0].pts| - 1) + SegmentCount(paths[1..])
  }

  /**
    The replay of the committed strokes, in commit order: it holds exactly
    Σ(|pts| − 1) segments over the strokes that have at least two points.
   */
  function RedrawAll(paths: seq<Stroke>): (r: seq<Segment>)
    ensures |r| == SegmentCount(paths)
  {
    if paths == [] then [] else StrokeSegments(paths[0]) + RedrawAll(paths[1..])
  }

  /** Replay of a concatenation is the concatenation of the replays: strokes replay in commit order. */
  lemma {:induction false} RedrawAllAppend(a: seq<Stroke>, b: seq<Stroke>)
    ensures RedrawAll(a + b) == RedrawAll(a) + RedrawAll(b)
    decreases |a|
  {
    if a != [] {
      assert (a + b)[0] == a[0];
      assert (a + b)[1..] == a[1..] + b;
      RedrawAllAppend(a[1..], b);
    } else {
      assert a + b == b;
    }
  }

  /** Committing one more stroke appends exactly that stroke's segments to the replay. */
  lemma RedrawAllSnoc(paths: seq<Stroke>, s: Stroke)
    ensures RedrawAll(paths + [s]) == RedrawAll(paths) + StrokeSegments(s)
  {
    RedrawAllAppend(paths, [s]);
    assert [s][1..] == [];
    assert RedrawAll([s]) == StrokeSegments(s) + RedrawAll([]);
  }

  /**
    Segment i of stroke j sits at offset SegmentCount(paths[..j]) + i − 1 of
    the replay: it joins pts[i−1] to pts[i] of that stroke, in its style,
    with the pressure of pts[i].
   */
  lemma RedrawAllPlacesSegment(paths: seq<Stroke>, j: nat, i: nat)
    requires j < |paths| && 1 <= i < |paths[j].pts|
    ensures SegmentCount(paths[..j]) + i - 1 < |RedrawAll(paths)|
    ensures RedrawAll(paths)[SegmentCount(paths[..j]) + i - 1]
            == SegmentTo(paths[j], paths[j].pts[i - 1], paths[j].pts[i])
  {
    var pre := paths[..j];
    var post := paths[j + 1..];
    assert paths == pre + ([paths[j]] + post);
    RedrawAllAppend(pre, [paths[j]] + post);
    RedrawAllAppend([paths[j]], post);
    var mid := StrokeSegments(paths[j]);
    assert RedrawAll([paths[j]]) == mid by {
      assert [paths[j]][1..] == [];
    }
    assert RedrawAll(paths) == RedrawAll(pre) + (mid + RedrawAll(post));
    IndexInMiddle(RedrawAll(pre), mid, RedrawAll(post), i - 1);
    assert mid[i - 1] == SegmentTo(paths[j], paths[j].pts[i - 1], paths[j].pts[i]);
  }

  lemma IndexInMiddle<T>(x: seq<T>, y: seq<T>, z: seq<T>, k: nat)
    requires k < |y|
    ensures |x| + k < |x + (y + z)| && (x + (y + z))[|x| + k] == y[k]
  {
  }

  /** The segment `extend` draws live when appending `q` to `s`. */
  function LiveSegment(s: Stroke, q: Point): Segment
    requires |s.pts| >= 1
  {
    SegmentTo(s, Last(s), q)
  }

  /** The segments drawn live while `extend` appends each of `qs` in turn. */
  function LiveTrace(s: Stroke, qs: seq<Point>): seq<Segment>
    requires |s.pts| >= 1
    decreases |qs|
  {
    if qs == [] then [] else [LiveSegment(s, qs[0])] + LiveTrace(Append(s, qs[0]), qs[1..])
  }

  /** Replaying a stroke after one more point adds exactly the segment drawn live for it. */
  lemma LiveSegmentMatchesReplay(s: Stroke, q: Point)
    requires |s.pts| >= 1
    ensures StrokeSegments(Append(s, q)) == StrokeSegments(s) + [LiveSegment(s, q)]
  {
    var s' := Append(s, q);
    var a := StrokeSegments(s');
    var b := StrokeSegments(s) + [LiveSegment(s, q)];
    assert |a| == |b|;
    forall k | 0 <= k < |a|
      ensures a[k] == b[k]
    {
      assert s'.pts[k] == (s.pts + [q])[k];
      assert s'.pts[k + 1] == (s.pts + [q])[k + 1];
    }
  }

  /**
    Live drawing and replay agree: the segments drawn while a stroke grows
    are exactly the segments a later replay draws for the grown stroke.
   */
  lemma {:induction false} LiveTraceMatchesReplay(s: Stroke, qs: seq<Point>)
    requires |s.pts| >= 1
    ensures StrokeSegments(Grow(s, qs)) == StrokeSegments(s) + LiveTrace(s, qs)
    decreases |qs|
  {
    if qs != [] {
      LiveSegmentMatchesReplay(s, qs[0]);
      LiveTraceMatchesReplay(Append(s, qs[0]), qs[1..]);
    }
  }
}

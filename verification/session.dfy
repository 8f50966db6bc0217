/**
  The stroke session and its history: the committed strokes `paths`, the
  redo stack and the stroke being drawn, if any. Both stacks grow and
  shrink at their end (JavaScript `push`/`pop`), so the top of each is its
  last element. `extend` reports the ink it draws live and the links the
  soft-web planner plans for the new point; the web radius is a parameter,
  fixed at 50 in app.v4.js and read from the slider in app.v5.js.
 */
module Sketch {
  import opened Geometry
  import opened Strokes
  import opened Replay
  import opened SoftWeb

  /** An optional value: the stroke in progress, when there is one. */
  datatype Option<+T> = None | Some(value: T)

  /** The engine state; `cur` is `Some` exactly while a stroke is being drawn. */
  datatype Session = Session(paths: seq<Stroke>, redo: seq<Stroke>, cur: Option<Stroke>)

  /** The drawing controls read when a stroke begins. */
  datatype Style = Style(color: string, baseW: real, alpha: real)

  /** What one `extend` call produces: the new state, the ink drawn live and the planned web links. */
  datatype Moved = Moved(s: Session, ink: seq<Segment>, links: seq<Link>)

  /** The state on load: nothing committed, nothing to redo, idle. */
  const Start: Session := Session([], [], None)

  /** A stroke as it sits on either stack: tightly boxed, with at least two points. */
  predicate Committed(s: Stroke)
  {
    WellFormed(s) && |s.pts| >= 2
  }

  /** The invariant every operation keeps. */
  predicate Valid(st: Session)
  {
    && (forall k :: 0 <= k < |st.paths| ==> Committed(st.paths[k]))
    && (forall k :: 0 <= k < |st.redo| ==> Committed(st.redo[k]))
    && (st.cur.Some? ==> WellFormed(st.cur.value))
  }

  /** The top of a stack. */
  function Top(stack: seq<Stroke>): Stroke
    requires stack != []
  {
    stack[|stack| - 1]
  }

  /**
    `begin`: start a new stroke with one point and the box (x, y, x, y),
    replacing any stroke in progress; the stacks are untouched.
   */
  function BeginStroke(st: Session, style: Style, q: Point): (r: Session)
    ensures r.paths == st.paths && r.redo == st.redo
    ensures r.cur.Some? && r.cur.value.pts == [q] && r.cur.value.bbox == BBox(q.x, q.y, q.x, q.y)
    ensures r.cur.value.color == style.color && r.cur.value.baseW == style.baseW && r.cur.value.alpha == style.alpha
    ensures Valid(st) ==> Valid(r)
  {
    st.(cur := Some(Begin(style.color, style.baseW, style.alpha, q)))
  }

  /**
    `extend`: when a stroke is in progress, append the point, widen its box,
    draw the segment from the previous point and plan the web links from
    the new point to the committed strokes; when idle, do nothing. The
    stacks never change.
   */
  function Extend(st: Session, q: Point, radius: real, tape: seq<Draw>): (r: Moved)
    requires ValidTape(tape)
    requires st.cur.Some? ==> |st.cur.value.pts| >= 1
    ensures st.cur.None? ==> r == Moved(st, [], [])
    ensures r.s.paths == st.paths && r.s.redo == st.redo
    ensures st.cur.Some? ==> r.s.cur == Some(Append(st.cur.value, q))
    ensures st.cur.Some? ==>
              && r.s.cur.Some?
              && r.s.cur.value.pts == st.cur.value.pts + [q]
              && r.s.cur.value.color == st.cur.value.color
              && r.s.cur.value.baseW == st.cur.value.baseW
              && r.s.cur.value.alpha == st.cur.value.alpha
              && r.s.cur.value.bbox == Widen(st.cur.value.bbox, q)
              && Inside(r.s.cur.value.bbox, q)
              && r.ink == [LiveSegment(st.cur.value, q)]
              && r.links == Plan(PosOf(q), st.cur.value.color, st.paths, radius, tape)
    ensures Valid(st) ==> Valid(r.s)
  {
    match st.cur
    case None => Moved(st, [], [])
    case Some(c) =>
      Moved(st.(cur := Some(Append(c, q))), [LiveSegment(c, q)], Plan(PosOf(q), c.color, st.paths, radius, tape))
  }

  /**
    `end`: commit the stroke in progress when it has more than one point,
    which empties the redo stack, and become idle. A single-point stroke is
    discarded; when idle nothing happens.
   */
  function End(st: Session): (r: Session)
    ensures r.cur.None?
    ensures st.cur.None? ==> r == st
    ensures st.cur.Some? && |st.cur.value.pts| > 1 ==> r.paths == st.paths + [st.cur.value] && r.redo == []
    ensures !(st.cur.Some? && |st.cur.value.pts| > 1) ==> r.paths == st.paths && r.redo == st.redo
    ensures Valid(st) ==> Valid(r)
  {
    match st.cur
    case None => st
    case Some(c) =>
      if |c.pts| > 1 then Session(st.paths + [c], [], None) else st.(cur := None)
  }

  /** `end` commits exactly when a stroke of more than one point is in progress. */
  lemma EndCommitsIff(st: Session)
    ensures |End(st).paths| == |st.paths| + 1 <==> st.cur.Some? && |st.cur.value.pts| > 1
    ensures End(st).paths != st.paths <==> st.cur.Some? && |st.cur.value.pts| > 1
  {
    if st.cur.Some? && |st.cur.value.pts| > 1 {
      assert |End(st).paths| == |st.paths| + 1;
    }
  }

  /**
    `undo`: move the top committed stroke onto the redo stack; with nothing
    committed, do nothing. Strokes are neither created nor lost.
   */
  function Undo(st: Session): (r: Session)
    ensures st.paths == [] ==> r == st
    ensures st.paths != [] ==> r.paths + [Top(st.paths)] == st.paths && r.redo == st.redo + [Top(st.paths)]
    ensures r.cur == st.cur
    ensures multiset(r.paths) + multiset(r.redo) == multiset(st.paths) + multiset(st.redo)
    ensures Valid(st) ==> Valid(r)
  {
    if st.paths == [] then st
    else
      var n := |st.paths| - 1;
      assert st.paths == st.paths[..n] + [st.paths[n]];
      st.(paths := st.paths[..n], redo := st.redo + [st.paths[n]])
  }

  /**
    `redo`: move the top of the redo stack back onto the committed strokes;
    with nothing to redo, do nothing. Strokes are neither created nor lost.
   */
  function Redo(st: Session): (r: Session)
    ensures st.redo == [] ==> r == st
    ensures st.redo != [] ==> r.redo + [Top(st.redo)] == st.redo && r.paths == st.paths + [Top(st.redo)]
    ensures r.cur == st.cur
    ensures multiset(r.paths) + multiset(r.redo) == multiset(st.paths) + multiset(st.redo)
    ensures Valid(st) ==> Valid(r)
  {
    if st.redo == [] then st
    else
      var n := |st.redo| - 1;
      assert st.redo == st.redo[..n] + [st.redo[n]];
      st.(redo := st.redo[..n], paths := st.paths + [st.redo[n]])
  }

  /** Undo followed by redo restores both stacks exactly. */
  lemma UndoThenRedo(st: Session)
    requires st.paths != []
    ensures Redo(Undo(st)) == st
  {
    var u := Undo(st);
    assert u.redo != [] && Top(u.redo) == Top(st.paths);
    assert Redo(u).paths == st.paths;
    assert Redo(u).redo + [Top(st.paths)] == st.redo + [Top(st.paths)];
  }

  /** Redo followed by undo restores both stacks exactly. */
  lemma RedoThenUndo(st: Session)
    requires st.redo != []
    ensures Undo(Redo(st)) == st
  {
    var r := Redo(st);
    assert r.paths != [] && Top(r.paths) == Top(st.redo);
    assert Undo(r).redo == st.redo;
    assert Undo(r).paths + [Top(st.redo)] == st.paths + [Top(st.redo)];
  }

  /** The clear button: both stacks emptied and the stroke in progress dropped. */
  function Clear(st: Session): (r: Session)
    ensures r.paths == [] && r.redo == [] && r.cur.None?
    ensures Valid(r)
  {
    Start
  }

  /** After clearing, undo and redo both do nothing. */
  lemma ClearedHistoryIsInert(st: Session)
    ensures Undo(Clear(st)) == Clear(st) && Redo(Clear(st)) == Clear(st)
  {
  }

  /** What a history operation does to the canvas: nothing, or a repaint from scratch. */
  datatype Screen = Untouched | Repainted(ink: seq<Segment>)

  /** The state after a history operation and what it did to the canvas. */
  datatype Shown = Shown(s: Session, screen: Screen)

  /**
    `undo` with its repaint: the canvas is repainted only when a stroke
    moves, and then with the replay of the remaining strokes, which is the
    old replay minus exactly the undone stroke's segments. Live ink and web
    filaments are not part of a replay, so the repaint erases them.
   */
  function UndoAndRepaint(st: Session): (r: Shown)
    ensures r.s == Undo(st)
    ensures st.paths == [] <==> r.screen == Untouched
    ensures r.screen.Repainted? ==> r.screen.ink == RedrawAll(r.s.paths)
    ensures st.paths != [] ==> r.screen.Repainted? && r.screen.ink + StrokeSegments(Top(st.paths)) == RedrawAll(st.paths)
  {
    if st.paths == [] then Shown(st, Untouched)
    else
      var u := Undo(st);
      RedrawAllSnoc(u.paths, Top(st.paths));
      Shown(u, Repainted(RedrawAll(u.paths)))
  }

  /**
    `redo` with its repaint: the canvas is repainted only when a stroke
    moves, and then with the old replay followed by exactly the restored
    stroke's segments.
   */
  function RedoAndRepaint(st: Session): (r: Shown)
    ensures r.s == Redo(st)
    ensures st.redo == [] <==> r.screen == Untouched
    ensures r.screen.Repainted? ==> r.screen.ink == RedrawAll(r.s.paths)
    ensures st.redo != [] ==> r.screen.Repainted? && r.screen.ink == RedrawAll(st.paths) + StrokeSegments(Top(st.redo))
  {
    if st.redo == [] then Shown(st, Untouched)
    else
      var d := Redo(st);
      RedrawAllSnoc(st.paths, Top(st.redo));
      Shown(d, Repainted(RedrawAll(d.paths)))
  }

  /** The clear button with its repaint: a blank canvas, which is the replay of the emptied history. */
  function ClearAndBlank(st: Session): (r: Shown)
    ensures r.s == Clear(st)
    ensures r.screen == Repainted([]) && RedrawAll(r.s.paths) == []
  {
    Shown(Clear(st), Repainted([]))
  }

  /**
    A commit after an undo discards what could have been redone: commit A,
    commit B, undo, commit C leaves A and C committed and nothing to redo.
   */
  lemma CommitUndoCommit(st: Session, a: Stroke, b: Stroke, c: Stroke)
    requires |a.pts| > 1 && |b.pts| > 1 && |c.pts| > 1
    ensures End(Undo(End(End(st.(cur := Some(a))).(cur := Some(b)))).(cur := Some(c))).paths == st.paths + [a, c]
    ensures End(Undo(End(End(st.(cur := Some(a))).(cur := Some(b)))).(cur := Some(c))).redo == []
  {
    var s1 := End(st.(cur := Some(a)));
    var s2 := End(s1.(cur := Some(b)));
    var s3 := Undo(s2);
    assert s2.paths == st.paths + [a] + [b];
    assert s3.paths + [b] == st.paths + [a] + [b];
    assert s3.paths == st.paths + [a];
  }

  // ---------------------------------------------------------------------
  // A whole stroke: `begin`, one `extend` per later point, `end`.

  /**
    One `extend` event: the point, the web radius read for it (fixed in
    app.v4.js, re-read from the slider in app.v5.js) and the draws it makes.
   */
  datatype Move = Move(q: Point, radius: real, tape: seq<Draw>)

  /** Every move brings its own full tape of draws. */
  predicate Drawable(ms: seq<Move>)
  {
    forall i :: 0 <= i < |ms| ==> ValidTape(ms[i].tape)
  }

  /** The points of a run of moves, in order. */
  function Points(ms: seq<Move>): (qs: seq<Point>)
    ensures |qs| == |ms|
    ensures forall i :: 0 <= i < |ms| ==> qs[i] == ms[i].q
  {
    seq(|ms|, i requires 0 <= i < |ms| => ms[i].q)
  }

  /**
    Successive `extend` calls, collecting the ink and the links. They never
    touch the stacks; when idle they do nothing; while drawing each move
    draws exactly one live segment.
   */
  function Moves(st: Session, ms: seq<Move>): (r: Moved)
    requires Drawable(ms)
    requires st.cur.Some? ==> |st.cur.value.pts| >= 1
    ensures r.s.paths == st.paths && r.s.redo == st.redo
    ensures st.cur.None? ==> r == Moved(st, [], [])
    ensures st.cur.Some? ==> r.s.cur.Some? && |r.ink| == |ms|
    decreases |ms|
  {
    if ms == [] then Moved(st, [], [])
    else
      var m := Extend(st, ms[0].q, ms[0].radius, ms[0].tape);
      var rest := Moves(m.s, ms[1..]);
      Moved(rest.s, m.ink + rest.ink, m.links + rest.links)
  }

  /** The moves of one stroke grow it point by point and draw live exactly the segments `LiveTrace` lists. */
  lemma {:induction false} MovesGrow(st: Session, ms: seq<Move>)
    requires Drawable(ms) && st.cur.Some? && |st.cur.value.pts| >= 1
    ensures Moves(st, ms).s.cur == Some(Grow(st.cur.value, Points(ms)))
    ensures Moves(st, ms).ink == LiveTrace(st.cur.value, Points(ms))
    decreases |ms|
  {
    if ms != [] {
      var m := Extend(st, ms[0].q, ms[0].radius, ms[0].tape);
      assert m.s.cur == Some(Append(st.cur.value, ms[0].q));
      MovesGrow(m.s, ms[1..]);
      var qs := Points(ms);
      assert qs[0] == ms[0].q && qs[1..] == Points(ms[1..]);
    }
  }

  /**
    Begin at `q0`, extend through the moves, end. The session ends idle; a
    stroke is committed, emptying the redo stack, exactly when at least one
    move followed `begin`; otherwise both stacks are unchanged.
   */
  function Scribble(st: Session, style: Style, q0: Point, ms: seq<Move>): (r: Session)
    requires Drawable(ms)
    ensures r.cur.None?
    ensures ms == [] ==> r.paths == st.paths && r.redo == st.redo
    ensures ms != [] ==> |r.paths| == |st.paths| + 1 && r.redo == []
  {
    var b := BeginStroke(st, style, q0);
    MovesGrow(b, ms);
    End(Moves(b, ms).s)
  }

  /**
    The committed stroke records every point in order on top of the earlier
    strokes, its box is their tight bound, and the session keeps its
    invariant.
   */
  lemma ScribbleCommits(st: Session, style: Style, q0: Point, ms: seq<Move>)
    requires Drawable(ms)
    ensures ms != [] ==>
              && Scribble(st, style, q0, ms).paths[..|st.paths|] == st.paths
              && Top(Scribble(st, style, q0, ms).paths).pts == [q0] + Points(ms)
              && Tight(Top(Scribble(st, style, q0, ms).paths).bbox, [q0] + Points(ms))
    ensures Valid(st) ==> Valid(Scribble(st, style, q0, ms))
  {
    var b := BeginStroke(st, style, q0);
    var qs := Points(ms);
    MovesGrow(b, ms);
    BeginThenExtends(style.color, style.baseW, style.alpha, q0, qs);
    GrowRecordsEveryPoint(b.cur.value, qs);
    var m := Moves(b, ms).s;
    assert m.cur == Some(Grow(b.cur.value, qs));
    assert Valid(st) ==> Valid(m);
    if ms != [] {
      var r := Scribble(st, style, q0, ms);
      assert r.paths == st.paths + [Grow(b.cur.value, qs)];
      assert r.paths[..|st.paths|] == st.paths;
    }
  }

  /**
    What is drawn live is what replay draws: after a committed stroke,
    `redrawAll` replays the earlier strokes and then exactly the segments
    the stroke's `extend` calls drew.
   */
  lemma ScribbleReplaysLiveInk(st: Session, style: Style, q0: Point, ms: seq<Move>)
    requires Drawable(ms) && ms != []
    ensures RedrawAll(Scribble(st, style, q0, ms).paths)
            == RedrawAll(st.paths) + Moves(BeginStroke(st, style, q0), ms).ink
  {
    var b := BeginStroke(st, style, q0);
    var s0 := b.cur.value;
    var qs := Points(ms);
    MovesGrow(b, ms);
    var g := Grow(s0, qs);
    assert |g.pts| > 1;
    assert Scribble(st, style, q0, ms).paths == st.paths + [g];
    RedrawAllSnoc(st.paths, g);
    LiveTraceMatchesReplay(s0, qs);
    assert StrokeSegments(s0) == [];
    assert StrokeSegments(g) == Moves(b, ms).ink;
  }

  /**
    `begin` at (0, 0) with pressure 1, `extend` to (10, 0) with pressure 1,
    `end`: one stroke with box (0, 0, 10, 0) is committed and its replay is
    one segment from (0, 0) to (10, 0) at pressure 1.
   */
  lemma TwoPointScenario(style: Style, radius: real, tape: seq<Draw>)
    requires ValidTape(tape)
    ensures Scribble(Start, style, Point(0.0, 0.0, 1.0), [Move(Point(10.0, 0.0, 1.0), radius, tape)]).paths
            == [Stroke(style.color, style.baseW, style.alpha, [Point(0.0, 0.0, 1.0), Point(10.0, 0.0, 1.0)],
                       BBox(0.0, 0.0, 10.0, 0.0))]
    ensures RedrawAll(Scribble(Start, style, Point(0.0, 0.0, 1.0), [Move(Point(10.0, 0.0, 1.0), radius, tape)]).paths)
            == [Segment(Point(0.0, 0.0, 1.0), Point(10.0, 0.0, 1.0), 1.0, style.color, style.baseW, style.alpha)]
  {
    var q0 := Point(0.0, 0.0, 1.0);
    var q1 := Point(10.0, 0.0, 1.0);
    var ms := [Move(q1, radius, tape)];
    assert Drawable(ms);
    var b := BeginStroke(Start, style, q0);
    var m := Extend(b, q1, radius, tape);
    assert ms[1..] == [];
    assert Moves(b, ms).s == m.s;
    var s := Stroke(style.color, style.baseW, style.alpha, [q0, q1], BBox(0.0, 0.0, 10.0, 0.0));
    assert b.cur.value == Stroke(style.color, style.baseW, style.alpha, [q0], BBox(0.0, 0.0, 0.0, 0.0));
    assert Widen(BBox(0.0, 0.0, 0.0, 0.0), q1) == BBox(0.0, 0.0, 10.0, 0.0);
    assert [q0] + [q1] == [q0, q1];
    assert m.s.cur == Some(s);
    var r := Scribble(Start, style, q0, ms);
    assert r.paths == [] + [s];
    RedrawAllSnoc([], s);
    var seg := StrokeSegments(s);
    assert |seg| == 1 && seg[0] == Segment(q0, q1, 1.0, style.color, style.baseW, style.alpha);
    assert seg == [Segment(q0, q1, 1.0, style.color, style.baseW, style.alpha)];
  }

  // ---------------------------------------------------------------------
  // The web links of one `extend` in a reachable state.

  /** Committed strokes always have covering boxes, as the pre-filter needs. */
  lemma ValidBoxesCover(st: Session)
    requires Valid(st)
    ensures BoxesCover(st.paths)
  {
    forall k | 0 <= k < |st.paths|
      ensures Covers(st.paths[k].bbox, st.paths[k].pts)
    {
      assert Committed(st.paths[k]);
    }
  }

  /**
    In a reachable state with a radius that is not negative, one `extend`
    plans min(6, Σ demands) links, each from the new point to a committed
    point within squared distance radius²; the count does not depend on
    the draws.
   */
  lemma ExtendLinks(st: Session, q: Point, radius: real, tape: seq<Draw>)
    requires ValidTape(tape) && Valid(st) && st.cur.Some? && radius >= 0.0
    ensures |Extend(st, q, radius, tape).links| == IntMin(Demand(InRangeSets(PosOf(q), st.paths, radius), 0), MaxLinks)
    ensures forall l :: l in Extend(st, q, radius, tape).links ==>
              l.from == PosOf(q) && l.stroke < |st.paths| && l.to in st.paths[l.stroke].pts
              && D2(PosOf(q), l.to) <= radius * radius
  {
    ValidBoxesCover(st);
    PlanCount(PosOf(q), st.cur.value.color, st.paths, radius, tape);
    PlanBounds(PosOf(q), st.cur.value.color, st.paths, radius, tape);
  }

  /**
    The slider version falls back to the fixed-radius version: a slider that
    parses to NaN or 0 gives exactly the moves of the radius-50 build.
   */
  lemma SliderFallbackIsFixedRadius(st: Session, q: Point, slider: Parsed, tape: seq<Draw>)
    requires ValidTape(tape) && (st.cur.Some? ==> |st.cur.value.pts| >= 1)
    requires slider.NaN? || slider.v == 0.0
    ensures Extend(st, q, EffectiveRadius(slider), tape) == Extend(st, q, DefaultRadius, tape)
  {
  }
}

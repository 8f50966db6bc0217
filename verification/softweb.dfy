/**
  The soft-web link planner. For the newest point of the stroke being
  drawn it walks the committed strokes in commit order, rejects a stroke
  whose box grown by the radius misses the point, collects the stroke's
  points that pass the distance test, and plans 1 + min(2, ⌊|nearby|/12⌋)
  links to it, stopping once six links are planned in this call.

  Drawing is replaced by emitted link records. `Math.random` is replaced by
  a tape of draws: link number k of the call takes its endpoint pick and
  its width draw from tape[k], in the order `softWebConnect` calls them.

  The plan is split in two. `Schedule` decides, without any randomness,
  which stroke each of the call's links goes to and which nearby points it
  may pick from; `RealizeAll` then turns schedule slot k into a link using
  tape[k]. The schedule runs over the nearby sets the call consults
  (`Candidates`): a stroke the box test rejects counts as one with nothing
  in range, since `softWebConnect` moves on from both alike.
  `PrefilterIsTransparent` shows that, for boxes that cover their points
  and any distance test that accepts nothing outside the square window of
  half-side R (`NearIsLocal`), the box test leaves every nearby set as the
  scan finds it. The loops themselves are in module Connect.
 */
module SoftWeb {
  import opened Geometry
  import opened Strokes

  const MaxLinks: nat := 6
  const LinkAlpha: real := 0.38
  const LinkMinW: real := 0.25
  const LinkMaxW: real := 0.7

  /**
    One planned filament from the new position to a point of a committed
    stroke, in the colour of the stroke being drawn at the fixed link alpha.
   */
  datatype Link = Link(from: Pos, to: Point, stroke: nat, width: real, alpha: real, color: string)

  /**
    The two `Math.random()` calls made for one link, each in [0, 1): the
    endpoint pick and the width draw.
   */
  datatype Draw = Draw(pick: real, jitter: real)

  predicate InUnit(r: real)
  {
    0.0 <= r < 1.0
  }

  /** One draw per link, enough for the most links one call can plan. */
  predicate ValidTape(tape: seq<Draw>)
  {
    |tape| == MaxLinks && forall k :: 0 <= k < |tape| ==> InUnit(tape[k].pick) && InUnit(tape[k].jitter)
  }

  function IntMin(a: int, b: int): int { if a < b then a else b }

  /** `softWebConnect`'s distance test for a new position `a`: d2(a, q) <= r2. */
  function InRange(a: Pos, r2: real): Point -> bool
  {
    q => D2(a, q) <= r2
  }

  /** The points of `pts` that pass the distance test, in recorded order. */
  function Nearby(pts: seq<Point>, near: Point -> bool): (nb: seq<Point>)
    ensures |nb| <= |pts|
    decreases |pts|
  {
    if pts == [] then []
    else (if near(pts[0]) then [pts[0]] else []) + Nearby(pts[1..], near)
  }

  /** The nearby set holds exactly the recorded points that pass the distance test. */
  lemma {:induction false} NearbyMembers(pts: seq<Point>, near: Point -> bool)
    ensures forall q :: q in Nearby(pts, near) <==> q in pts && near(q)
    decreases |pts|
  {
    if pts != [] {
      NearbyMembers(pts[1..], near);
      assert pts == [pts[0]] + pts[1..];
    }
  }

  /** The distance test accepts nothing outside the square window of half-side `radius`. */
  ghost predicate NearIsLocal(a: Pos, near: Point -> bool, radius: real)
  {
    forall q :: near(q) ==> InWindow(a, q, radius)
  }

  /** The test d2 <= R² is local for a radius that is not negative. */
  lemma InRangeIsLocal(a: Pos, radius: real)
    requires radius >= 0.0
    ensures NearIsLocal(a, InRange(a, radius * radius), radius)
  {
    forall q | InRange(a, radius * radius)(q)
      ensures InWindow(a, q, radius)
    {
      DiskInWindow(a, q, radius);
    }
  }

  /** When no recorded point passes the distance test the nearby set is empty. */
  lemma {:induction false} NearbyNone(pts: seq<Point>, near: Point -> bool)
    requires forall i :: 0 <= i < |pts| ==> !near(pts[i])
    ensures Nearby(pts, near) == []
    decreases |pts|
  {
    if pts != [] {
      NearbyNone(pts[1..], near);
    }
  }

  /** A stroke whose box covers its points and is rejected by the box test has an empty nearby set. */
  lemma SkippedHasNoNearby(a: Pos, s: Stroke, radius: real, near: Point -> bool)
    requires NearIsLocal(a, near, radius) && Covers(s.bbox, s.pts) && Skipped(a, s.bbox, radius)
    ensures Nearby(s.pts, near) == []
  {
    forall i | 0 <= i < |s.pts|
      ensures !near(s.pts[i])
    {
      assert Inside(s.bbox, s.pts[i]);
      SkippedMissesWindow(a, s.bbox, s.pts[i], radius);
    }
    NearbyNone(s.pts, near);
  }

  /** Links planned for a stroke whose nearby set has `m` points. */
  function PerStroke(m: nat): (n: nat)
    ensures 1 <= n <= 3
    ensures n == 1 <==> m < 12
    ensures n == 3 <==> m >= 24
  {
    1 + IntMin(2, m / 12)
  }

  lemma FloorBelow(pick: real, n: nat)
    requires InUnit(pick) && n > 0
    ensures 0.0 <= pick * n as real < n as real
  {
    PositiveProduct(1.0 - pick, n as real);
    assert n as real - pick * n as real == (1.0 - pick) * n as real;
    if pick > 0.0 {
      PositiveProduct(pick, n as real);
    }
  }

  /**
    The endpoint index for a pick: `(Math.random() * n) | 0` in `softWebConnect`,
    the integer part of pick·n, always an index of the nearby set.
   */
  function PickIndex(pick: real, n: nat): (k: nat)
    requires InUnit(pick) && n > 0
    ensures k < n
  {
    FloorBelow(pick, n);
    (pick * n as real).Floor
  }

  /** The pick is the integer part of pick·n: pick·n lies in [k, k + 1). */
  lemma PickIndexIsFloor(pick: real, n: nat)
    requires InUnit(pick) && n > 0
    ensures PickIndex(pick, n) as real <= pick * n as real < PickIndex(pick, n) as real + 1.0
  {
  }

  /** The filament width `LINK_MIN_W + r * (LINK_MAX_W - LINK_MIN_W)` for a draw `r`. */
  function LinkWidth(r: real): (w: real)
    requires InUnit(r)
    ensures LinkMinW <= w < LinkMaxW
  {
    LinkMinW + r * (LinkMaxW - LinkMinW)
  }

  /**
    One planned link before its random draws are taken: the committed
    stroke it goes to and that stroke's nearby set.
   */
  datatype Slot = Slot(stroke: nat, nb: seq<Point>)

  /**
    A slot turned into a link by its draw: the endpoint is the picked member
    of the nearby set and the width comes from the jitter.
   */
  function Realize(a: Pos, color: string, s: Slot, d: Draw): (l: Link)
    requires |s.nb| > 0 && InUnit(d.pick) && InUnit(d.jitter)
    ensures l.from == a && l.color == color && l.stroke == s.stroke
    ensures l.to in s.nb
    ensures LinkMinW <= l.width < LinkMaxW
    ensures l.alpha == LinkAlpha
  {
    Link(a, s.nb[PickIndex(d.pick, |s.nb|)], s.stroke, LinkWidth(d.jitter), LinkAlpha, color)
  }

  /** `n` copies of one slot: the k-loop filling a stroke's slots. */
  function Copies(s: Slot, n: nat): (r: seq<Slot>)
    ensures |r| == n
    ensures forall x :: 0 <= x < n ==> r[x] == s
  {
    seq(n, _ => s)
  }

  /** The nearby set of every committed stroke under one distance test. */
  function NearbySets(paths: seq<Stroke>, near: Point -> bool): (nbs: seq<seq<Point>>)
    ensures |nbs| == |paths|
    ensures forall k :: 0 <= k < |paths| ==> nbs[k] == Nearby(paths[k].pts, near)
  {
    seq(|paths|, k requires 0 <= k < |paths| => Nearby(paths[k].pts, near))
  }

  /** Every stroke's nearby set under `softWebConnect`'s test d2(a, q) <= radius². */
  function InRangeSets(a: Pos, paths: seq<Stroke>, radius: real): (nbs: seq<seq<Point>>)
    ensures |nbs| == |paths|
  {
    NearbySets(paths, InRange(a, radius * radius))
  }

  /**
    The nearby sets after the box test. `softWebConnect` moves on to the
    next stroke both when the box test rejects a stroke and when the
    stroke's nearby set is empty, so a rejected stroke counts as one with
    nothing in range.
   */
  function Kept(a: Pos, paths: seq<Stroke>, radius: real, nbs: seq<seq<Point>>): (ks: seq<seq<Point>>)
    requires |nbs| == |paths|
    ensures |ks| == |paths|
    ensures forall k :: 0 <= k < |paths| ==> ks[k] == if Skipped(a, paths[k].bbox, radius) then [] else nbs[k]
  {
    seq(|paths|, k requires 0 <= k < |paths| => if Skipped(a, paths[k].bbox, radius) then [] else nbs[k])
  }

  /** The nearby sets one `softWebConnect` call consults: the in-range points of every stroke the box test keeps. */
  function Candidates(a: Pos, paths: seq<Stroke>, radius: real): (cs: seq<seq<Point>>)
    ensures |cs| == |paths|
  {
    Kept(a, paths, radius, InRangeSets(a, paths, radius))
  }

  /** Links a stroke with nearby set `nb` asks for before the cap: none when nothing is in range. */
  function StrokeDemand(nb: seq<Point>): (d: nat)
    ensures d <= 3
    ensures d > 0 <==> |nb| > 0
  {
    if |nb| == 0 then 0 else PerStroke(|nb|)
  }

  /** Σ of the demands of strokes j.. . */
  function Demand(sets: seq<seq<Point>>, j: nat): nat
    requires j <= |sets|
    decreases |sets| - j
  {
    if j == |sets| then 0 else StrokeDemand(sets[j]) + Demand(sets, j + 1)
  }

  /**
    The slots of stroke `j`, whose nearby set is `sets[j]`, when `links`
    links are planned so far in this call: the inner loop runs k over
    [0, n) and breaks at the cap, so it fills min(n, cap − links) slots,
    all to the same nearby set.
   */
  function StrokeSlots(sets: seq<seq<Point>>, j: nat, links: nat): (r: seq<Slot>)
    requires j < |sets| && links <= MaxLinks
    ensures |r| == IntMin(StrokeDemand(sets[j]), MaxLinks - links)
    ensures |r| <= IntMin(3, MaxLinks - links)
    ensures |sets[j]| > 0 && links < MaxLinks ==> |r| >= 1
    ensures forall x :: 0 <= x < |r| ==> r[x] == Slot(j, sets[j])
  {
    var nb := sets[j];
    if |nb| == 0 then [] else Copies(Slot(j, nb), IntMin(PerStroke(|nb|), MaxLinks - links))
  }

  /**
    The outer loop from stroke `j` on, `links` planned so far: fill this
    stroke's slots, stop when the cap is reached, otherwise go on.
   */
  function ScheduleFrom(sets: seq<seq<Point>>, j: nat, links: nat): (r: seq<Slot>)
    requires j <= |sets| && links < MaxLinks
    ensures links + |r| <= MaxLinks
    decreases |sets| - j
  {
    if j == |sets| then []
    else
      var e := StrokeSlots(sets, j, links);
      if links + |e| >= MaxLinks then e
      else e + ScheduleFrom(sets, j + 1, links + |e|)
  }

  /** A slot of stroke `j` or later whose nearby set is that stroke's, and not empty. */
  predicate SlotOk(s: Slot, sets: seq<seq<Point>>, j: nat)
  {
    && j <= s.stroke < |sets|
    && s.nb == sets[s.stroke]
    && |s.nb| > 0
  }

  /** Every slot filled from stroke `j` on belongs to a stroke at or after `j` and carries its nearby set. */
  lemma {:induction false} ScheduleFromSound(sets: seq<seq<Point>>, j: nat, links: nat)
    requires j <= |sets| && links < MaxLinks
    ensures forall x :: 0 <= x < |ScheduleFrom(sets, j, links)| ==> SlotOk(ScheduleFrom(sets, j, links)[x], sets, j)
    decreases |sets| - j
  {
    if j < |sets| {
      var r := ScheduleFrom(sets, j, links);
      var e := StrokeSlots(sets, j, links);
      PendingStep(sets, j, links);
      if links + |e| < MaxLinks {
        var rest := ScheduleFrom(sets, j + 1, links + |e|);
        ScheduleFromSound(sets, j + 1, links + |e|);
        assert r == e + rest;
        forall x | 0 <= x < |r|
          ensures SlotOk(r[x], sets, j)
        {
          if x >= |e| {
            assert r[x] == rest[x - |e|];
          } else {
            assert r[x] == e[x];
          }
        }
      } else {
        forall x | 0 <= x < |r|
          ensures SlotOk(r[x], sets, j)
        {
          assert r[x] == e[x];
        }
      }
    }
  }

  /** Slots are grouped by stroke in commit order. */
  predicate SlotsOrdered(r: seq<Slot>)
  {
    forall x, y :: 0 <= x < y < |r| ==> r[x].stroke <= r[y].stroke
  }

  /** Links are grouped by stroke in commit order. */
  predicate LinksOrdered(r: seq<Link>)
  {
    forall x, y :: 0 <= x < y < |r| ==> r[x].stroke <= r[y].stroke
  }

  /** The slots filled from stroke `j` on are grouped by stroke in commit order. */
  lemma {:induction false} ScheduleFromOrdered(sets: seq<seq<Point>>, j: nat, links: nat)
    requires j <= |sets| && links < MaxLinks
    ensures SlotsOrdered(ScheduleFrom(sets, j, links))
    ensures forall x :: 0 <= x < |ScheduleFrom(sets, j, links)| ==> ScheduleFrom(sets, j, links)[x].stroke >= j
    decreases |sets| - j
  {
    if j < |sets| {
      var r := ScheduleFrom(sets, j, links);
      var e := StrokeSlots(sets, j, links);
      assert forall x :: 0 <= x < |e| ==> e[x].stroke == j;
      PendingStep(sets, j, links);
      if links + |e| < MaxLinks {
        var rest := ScheduleFrom(sets, j + 1, links + |e|);
        ScheduleFromOrdered(sets, j + 1, links + |e|);
        OrderedConcat(e, rest, j);
        assert r == e + rest;
      } else {
        OrderedConcat(e, [], j);
        assert r == e + [];
      }
    }
  }

  /** Slots all of stroke `j` followed by ordered slots of later strokes are ordered. */
  lemma OrderedConcat(e: seq<Slot>, rest: seq<Slot>, j: nat)
    requires forall x :: 0 <= x < |e| ==> e[x].stroke == j
    requires forall y :: 0 <= y < |rest| ==> rest[y].stroke >= j + 1
    requires SlotsOrdered(rest)
    ensures SlotsOrdered(e + rest)
    ensures forall x :: 0 <= x < |e + rest| ==> (e + rest)[x].stroke >= j
  {
    var r := e + rest;
    forall x, y | 0 <= x < y < |r|
      ensures r[x].stroke <= r[y].stroke
    {
      if y < |e| {
        assert r[x] == e[x] && r[y] == e[y];
      } else if x < |e| {
        assert r[x] == e[x] && r[y] == rest[y - |e|];
      } else {
        assert r[x] == rest[x - |e|] && r[y] == rest[y - |e|];
      }
    }
  }

  /** The number of slots filled from stroke `j` on, with `links` already planned, is min(Σ demands, cap − links). */
  lemma {:induction false} ScheduleFromCount(sets: seq<seq<Point>>, j: nat, links: nat)
    requires j <= |sets| && links < MaxLinks
    ensures |ScheduleFrom(sets, j, links)| == IntMin(Demand(sets, j), MaxLinks - links)
    decreases |sets| - j
  {
    if j < |sets| {
      var e := StrokeSlots(sets, j, links);
      PendingStep(sets, j, links);
      if links + |e| < MaxLinks {
        ScheduleFromCount(sets, j + 1, links + |e|);
      }
    }
  }

  /** Every committed stroke's box covers its points. */
  predicate BoxesCover(paths: seq<Stroke>)
  {
    forall k :: 0 <= k < |paths| ==> Covers(paths[k].bbox, paths[k].pts)
  }

  /**
    The pre-filter is invisible: with covering boxes and a distance test
    local to the window, the box test rejects only strokes that have nothing
    in range, so it leaves every stroke's nearby set as the scan finds it.
   */
  lemma PrefilterIsTransparent(a: Pos, paths: seq<Stroke>, radius: real, near: Point -> bool)
    requires NearIsLocal(a, near, radius) && BoxesCover(paths)
    ensures Kept(a, paths, radius, NearbySets(paths, near)) == NearbySets(paths, near)
  {
    var nbs := NearbySets(paths, near);
    var ks := Kept(a, paths, radius, nbs);
    forall k | 0 <= k < |paths|
      ensures ks[k] == nbs[k]
    {
      if Skipped(a, paths[k].bbox, radius) {
        assert Covers(paths[k].bbox, paths[k].pts);
        SkippedHasNoNearby(a, paths[k], radius, near);
      }
    }
  }

  /** The slots of one `softWebConnect` call for the new position `a` and web radius `radius`. */
  function Schedule(a: Pos, paths: seq<Stroke>, radius: real): (r: seq<Slot>)
    ensures |r| <= MaxLinks
    ensures forall x :: 0 <= x < |r| ==> SlotOk(r[x], Candidates(a, paths, radius), 0)
  {
    ScheduleFromSound(Candidates(a, paths, radius), 0, 0);
    ScheduleFrom(Candidates(a, paths, radius), 0, 0)
  }

  /** Every slot of a schedule with a non-empty nearby set, paired with tape entry k, gives link k. */
  function RealizeAll(a: Pos, color: string, sched: seq<Slot>, tape: seq<Draw>): seq<Link>
    requires ValidTape(tape) && |sched| <= |tape|
    requires forall k :: 0 <= k < |sched| ==> |sched[k].nb| > 0
  {
    seq(|sched|, k requires 0 <= k < |sched| => Realize(a, color, sched[k], tape[k]))
  }

  /** The links one `softWebConnect` call plans: the schedule, realised draw by draw. */
  function Plan(a: Pos, color: string, paths: seq<Stroke>, radius: real, tape: seq<Draw>): (r: seq<Link>)
    requires ValidTape(tape)
    ensures |r| == |Schedule(a, paths, radius)|
    ensures forall k :: 0 <= k < |r| ==> r[k].stroke == Schedule(a, paths, radius)[k].stroke
  {
    var sched := Schedule(a, paths, radius);
    assert forall k :: 0 <= k < |sched| ==> SlotOk(sched[k], Candidates(a, paths, radius), 0);
    RealizeAll(a, color, sched, tape)
  }

  /** A non-empty candidate set is the stroke's in-range points. */
  lemma CandidateInRange(a: Pos, paths: seq<Stroke>, radius: real, k: nat)
    requires k < |paths| && |Candidates(a, paths, radius)[k]| > 0
    ensures forall q :: q in Candidates(a, paths, radius)[k] <==> q in paths[k].pts && D2(a, q) <= radius * radius
  {
    var near := InRange(a, radius * radius);
    assert Candidates(a, paths, radius)[k] == Nearby(paths[k].pts, near);
    NearbyMembers(paths[k].pts, near);
  }

  /**
    One call plans at most six links, grouped by stroke in commit order,
    each from the new position to a point of a committed stroke within
    squared distance radius², with a width in [0.25, 0.7).
   */
  lemma PlanBounds(a: Pos, color: string, paths: seq<Stroke>, radius: real, tape: seq<Draw>)
    requires ValidTape(tape)
    ensures |Plan(a, color, paths, radius, tape)| <= MaxLinks
    ensures forall l :: l in Plan(a, color, paths, radius, tape) ==>
              && l.from == a && l.color == color && l.stroke < |paths| && l.to in paths[l.stroke].pts
              && D2(a, l.to) <= radius * radius
              && LinkMinW <= l.width < LinkMaxW
    ensures LinksOrdered(Plan(a, color, paths, radius, tape))
  {
    var cs := Candidates(a, paths, radius);
    var sched := Schedule(a, paths, radius);
    ScheduleFromOrdered(cs, 0, 0);
    var r := Plan(a, color, paths, radius, tape);
    assert |r| == |sched|;
    forall l | l in r
      ensures && l.from == a && l.color == color && l.stroke < |paths| && l.to in paths[l.stroke].pts
              && D2(a, l.to) <= radius * radius
              && LinkMinW <= l.width < LinkMaxW
    {
      var k :| 0 <= k < |r| && r[k] == l;
      assert l == Realize(a, color, sched[k], tape[k]);
      assert SlotOk(sched[k], cs, 0);
      CandidateInRange(a, paths, radius, l.stroke);
    }
    forall x, y | 0 <= x < y < |r|
      ensures r[x].stroke <= r[y].stroke
    {
      assert r[x].stroke == sched[x].stroke && r[y].stroke == sched[y].stroke;
    }
  }

  /** With a non-negative radius and covering boxes, the call consults exactly every stroke's in-range points. */
  lemma CandidatesAreInRange(a: Pos, paths: seq<Stroke>, radius: real)
    requires radius >= 0.0 && BoxesCover(paths)
    ensures Candidates(a, paths, radius) == InRangeSets(a, paths, radius)
  {
    InRangeIsLocal(a, radius);
    PrefilterIsTransparent(a, paths, radius, InRange(a, radius * radius));
  }

  /**
    Closed form of the link count of one call, for a radius that is not
    negative: min(6, Σ over committed strokes with a non-empty nearby set
    of 1 + min(2, ⌊|nearby|/12⌋)). It depends on the geometry only.
   */
  lemma PlanCount(a: Pos, color: string, paths: seq<Stroke>, radius: real, tape: seq<Draw>)
    requires ValidTape(tape) && radius >= 0.0 && BoxesCover(paths)
    ensures |Plan(a, color, paths, radius, tape)| == IntMin(Demand(InRangeSets(a, paths, radius), 0), MaxLinks)
  {
    CandidatesAreInRange(a, paths, radius);
    ScheduleFromCount(Candidates(a, paths, radius), 0, 0);
  }

  /** Two plans of the same length whose k-th links go to the same stroke. */
  predicate SameStrokes(r1: seq<Link>, r2: seq<Link>)
  {
    |r1| == |r2| && forall x :: 0 <= x < |r1| ==> r1[x].stroke == r2[x].stroke
  }

  /**
    Only endpoints and widths are random: two tapes give plans of the same
    length whose k-th links go to the same stroke.
   */
  lemma PlanShapeIgnoresTape(a: Pos, color: string, paths: seq<Stroke>, radius: real, t1: seq<Draw>, t2: seq<Draw>)
    requires ValidTape(t1) && ValidTape(t2)
    ensures SameStrokes(Plan(a, color, paths, radius, t1), Plan(a, color, paths, radius, t2))
  {
    var sched := Schedule(a, paths, radius);
    var r1 := Plan(a, color, paths, radius, t1);
    var r2 := Plan(a, color, paths, radius, t2);
    forall x | 0 <= x < |r1|
      ensures r1[x].stroke == r2[x].stroke
    {
      assert r1[x].stroke == sched[x].stroke && r2[x].stroke == sched[x].stroke;
    }
  }

  /** With a non-negative radius and covering boxes, the schedule equals that of a scan of every stroke's points. */
  lemma PlanIgnoresPrefilter(a: Pos, paths: seq<Stroke>, radius: real)
    requires radius >= 0.0 && BoxesCover(paths)
    ensures Schedule(a, paths, radius) == ScheduleFrom(InRangeSets(a, paths, radius), 0, 0)
  {
    CandidatesAreInRange(a, paths, radius);
  }

  // ---------------------------------------------------------------------
  // Facts the loops of `softWebConnect` (module Connect) rely on.

  lemma NearbyStep(pts: seq<Point>, near: Point -> bool, i: nat)
    requires i < |pts|
    ensures Nearby(pts[i..], near) == (if near(pts[i]) then [pts[i]] else []) + Nearby(pts[i + 1..], near)
  {
    assert pts[i..][0] == pts[i];
    assert pts[i..][1..] == pts[i + 1..];
  }

  /** The distance test, applied. */
  lemma InRangeApplied(a: Pos, r2: real, q: Point)
    ensures InRange(a, r2)(q) == (D2(a, q) <= r2)
  {
  }

  /** `out` realises the slots `done` with the draws from tape entry `offset` on. */
  ghost predicate Realises(a: Pos, color: string, tape: seq<Draw>, out: seq<Link>, done: seq<Slot>, offset: nat)
    requires ValidTape(tape)
  {
    && |out| == |done| && offset + |out| <= |tape|
    && forall x :: 0 <= x < |out| ==> |done[x].nb| > 0 && out[x] == Realize(a, color, done[x], tape[offset + x])
  }

  /** Realised runs concatenate when the second continues on the tape where the first stopped. */
  lemma RealisesAppend(a: Pos, color: string, tape: seq<Draw>, out: seq<Link>, done: seq<Slot>,
                       burst: seq<Link>, e: seq<Slot>)
    requires ValidTape(tape)
    requires Realises(a, color, tape, out, done, 0) && Realises(a, color, tape, burst, e, |out|)
    ensures Realises(a, color, tape, out + burst, done + e, 0)
  {
    forall x | |out| <= x < |out| + |burst|
      ensures (out + burst)[x] == burst[x - |out|] && (done + e)[x] == e[x - |out|]
    {
    }
  }

  /**
    The slots the outer loop has still to fill on reaching stroke `j` with
    `links` links planned: `ScheduleFrom` under a name without recursion,
    so that the loop's invariant and its step lemmas match term for term.
   */
  function Pending(sets: seq<seq<Point>>, j: nat, links: nat): seq<Slot>
    requires j <= |sets| && links < MaxLinks
  {
    ScheduleFrom(sets, j, links)
  }

  /** One step of the outer loop: this stroke's slots, then the rest unless the cap is reached. */
  lemma PendingStep(sets: seq<seq<Point>>, j: nat, links: nat)
    requires j < |sets| && links < MaxLinks
    ensures links + |StrokeSlots(sets, j, links)| >= MaxLinks ==> Pending(sets, j, links) == StrokeSlots(sets, j, links)
    ensures links + |StrokeSlots(sets, j, links)| < MaxLinks ==>
              Pending(sets, j, links)
              == StrokeSlots(sets, j, links) + Pending(sets, j + 1, links + |StrokeSlots(sets, j, links)|)
  {
  }

  /**
    The schedule after stroke `j`'s slots, `links` of them filled before:
    complete at the cap, otherwise continued from stroke j + 1.
   */
  lemma ScheduleAdvance(sets: seq<seq<Point>>, j: nat, done: seq<Slot>, links: nat, sched: seq<Slot>)
    requires j < |sets| && links < MaxLinks
    requires done + Pending(sets, j, links) == sched
    ensures links + |StrokeSlots(sets, j, links)| >= MaxLinks ==> done + StrokeSlots(sets, j, links) == sched
    ensures links + |StrokeSlots(sets, j, links)| < MaxLinks ==>
              done + StrokeSlots(sets, j, links) + Pending(sets, j + 1, links + |StrokeSlots(sets, j, links)|)
              == sched
  {
    var e := StrokeSlots(sets, j, links);
    PendingStep(sets, j, links);
    if links + |e| < MaxLinks {
      var rest := Pending(sets, j + 1, links + |e|);
      assert done + (e + rest) == done + e + rest;
    }
  }

  /**
    The outer loop's invariant over the nearby sets `sets` after strokes
    [0, j) with `links` links drawn: `out` realises the slots `done`, and
    `done` followed by the slots of strokes j.. is the whole schedule `sched`.
   */
  ghost predicate Progress(a: Pos, color: string, tape: seq<Draw>, sets: seq<seq<Point>>, sched: seq<Slot>,
                           j: nat, links: nat, out: seq<Link>, done: seq<Slot>)
    requires ValidTape(tape)
  {
    && j <= |sets|
    && links < MaxLinks && |done| == links
    && done + Pending(sets, j, links) == sched
    && Realises(a, color, tape, out, done, 0)
  }

  /** Before the first stroke nothing is drawn and the whole schedule is ahead. */
  lemma ProgressInit(a: Pos, color: string, tape: seq<Draw>, sets: seq<seq<Point>>)
    requires ValidTape(tape)
    ensures Progress(a, color, tape, sets, Pending(sets, 0, 0), 0, 0, [], [])
  {
    assert [] + Pending(sets, 0, 0) == Pending(sets, 0, 0);
  }

  /** Appending the links of stroke `j` keeps the invariant while they stay under the cap. */
  lemma ProgressStep(a: Pos, color: string, tape: seq<Draw>, sets: seq<seq<Point>>, sched: seq<Slot>, j: nat,
                     links: nat, out: seq<Link>, done: seq<Slot>, burst: seq<Link>)
    requires ValidTape(tape) && j < |sets|
    requires Progress(a, color, tape, sets, sched, j, links, out, done)
    requires Realises(a, color, tape, burst, StrokeSlots(sets, j, links), links)
    requires links + |burst| < MaxLinks
    ensures Progress(a, color, tape, sets, sched, j + 1, links + |burst|, out + burst, done + StrokeSlots(sets, j, links))
    ensures done + StrokeSlots(sets, j, links) + Pending(sets, j + 1, links + |burst|) == sched
  {
    var e := StrokeSlots(sets, j, links);
    RealisesAppend(a, color, tape, out, done, burst, e);
    ScheduleAdvance(sets, j, done, links, sched);
  }

  /** Links of stroke `j` that reach the cap complete the schedule. */
  lemma ProgressCapped(a: Pos, color: string, tape: seq<Draw>, sets: seq<seq<Point>>, sched: seq<Slot>, j: nat,
                       links: nat, out: seq<Link>, done: seq<Slot>, burst: seq<Link>)
    requires ValidTape(tape) && j < |sets|
    requires Progress(a, color, tape, sets, sched, j, links, out, done)
    requires Realises(a, color, tape, burst, StrokeSlots(sets, j, links), links)
    requires links + |burst| >= MaxLinks
    ensures Realises(a, color, tape, out + burst, sched, 0)
  {
    var e := StrokeSlots(sets, j, links);
    RealisesAppend(a, color, tape, out, done, burst, e);
    ScheduleAdvance(sets, j, done, links, sched);
  }

  /** After the last stroke every slot of the schedule is realised. */
  lemma ProgressEnd(a: Pos, color: string, tape: seq<Draw>, sets: seq<seq<Point>>, sched: seq<Slot>, j: nat,
                    links: nat, out: seq<Link>, done: seq<Slot>)
    requires ValidTape(tape)
    requires Progress(a, color, tape, sets, sched, j, links, out, done) && j >= |sets|
    ensures Realises(a, color, tape, out, sched, 0)
  {
    assert done + [] == done;
  }

  /** Links that realise the whole schedule are the plan. */
  lemma ProgressDone(a: Pos, color: string, paths: seq<Stroke>, radius: real, tape: seq<Draw>, out: seq<Link>)
    requires ValidTape(tape)
    requires Realises(a, color, tape, out, Pending(Candidates(a, paths, radius), 0, 0), 0)
    ensures out == Plan(a, color, paths, radius, tape) && |out| <= MaxLinks
  {
    var r := Plan(a, color, paths, radius, tape);
    var sched := Schedule(a, paths, radius);
    assert |r| == |sched|;
    forall x | 0 <= x < |out|
      ensures out[x] == r[x]
    {
    }
  }
}

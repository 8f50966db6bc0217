/**
  The soft-web planner as `softWebConnect` writes it: an outer loop over the
  committed strokes with the box test, the scan of the stroke's points and
  the k-loop, and the two breaks at the cap of six links. Each loop is
  proved to compute its part of `SoftWeb.Plan`.
 */
module Connect {
  import opened Geometry
  import opened Strokes
  import opened SoftWeb

  /** The scan of one stroke: its points within squared distance r2 of `a`, in recorded order. */
  method CollectNearby(a: Pos, pts: seq<Point>, r2: real) returns (nearby: seq<Point>)
    ensures nearby == Nearby(pts, InRange(a, r2))
  {
    ghost var near := InRange(a, r2);
    nearby := [];
    var i := 0;
    while i < |pts|
      invariant 0 <= i <= |pts|
      invariant nearby + Nearby(pts[i..], near) == Nearby(pts, near)
    {
      NearbyStep(pts, near, i);
      InRangeApplied(a, r2, pts[i]);
      if D2(a, pts[i]) <= r2 {
        nearby := nearby + [pts[i]];
      }
      i := i + 1;
    }
    assert pts[i..] == [];
  }

  /**
    The k-loop for one stroke: with `links` links drawn so far, draw up to
    `n` links to `nearby`, stopping at the cap; link number links + x uses
    tape entry links + x.
   */
  method DrawLinks(a: Pos, color: string, nearby: seq<Point>, j: nat, n: nat, tape: seq<Draw>, links: nat)
    returns (burst: seq<Link>)
    requires ValidTape(tape) && |nearby| > 0 && links <= MaxLinks
    ensures |burst| == IntMin(n, MaxLinks - links)
    ensures forall x :: 0 <= x < |burst| ==> burst[x] == Realize(a, color, Slot(j, nearby), tape[links + x])
  {
    burst := [];
    var k := 0;
    while k < n
      invariant 0 <= k <= n && |burst| == k && links + k <= MaxLinks
      invariant forall x :: 0 <= x < |burst| ==> burst[x] == Realize(a, color, Slot(j, nearby), tape[links + x])
    {
      if links + |burst| >= MaxLinks {
        break;
      }
      var idx := PickIndex(tape[links + |burst|].pick, |nearby|);
      var w := LinkWidth(tape[links + |burst|].jitter);
      burst := burst + [Link(a, nearby[idx], j, w, LinkAlpha, color)];
      k := k + 1;
    }
  }

  /**
    One pass of the outer loop: the links drawn to stroke `j` when `links`
    links are drawn so far. A stroke the box test rejects, or one with no
    point in range, gets none; otherwise its k-th link realises its k-th slot.
   */
  method ConnectStroke(a: Pos, color: string, paths: seq<Stroke>, j: nat, radius: real, tape: seq<Draw>, links: nat)
    returns (burst: seq<Link>)
    requires j < |paths| && ValidTape(tape) && links < MaxLinks
    ensures Realises(a, color, tape, burst, StrokeSlots(Candidates(a, paths, radius), j, links), links)
  {
    ghost var cs := Candidates(a, paths, radius);
    var b := paths[j].bbox;
    if a.x < b.minx - radius || a.x > b.maxx + radius || a.y < b.miny - radius || a.y > b.maxy + radius {
      assert cs[j] == [];
      return [];
    }
    var nearby := CollectNearby(a, paths[j].pts, radius * radius);
    assert nearby == cs[j];
    if |nearby| == 0 {
      return [];
    }
    var n := 1 + IntMin(2, |nearby| / 12);
    burst := DrawLinks(a, color, nearby, j, n, tape, links);
  }

  /**
    One pass of the outer loop with its bookkeeping: stroke `j`'s links are
    appended to `out`. Either the cap is reached and `out` realises the
    whole schedule, or the loop's invariant (`Progress`, one conjunct per
    ensures) holds for stroke j + 1.
   */
  method ConnectPass(a: Pos, color: string, paths: seq<Stroke>, radius: real, tape: seq<Draw>, ghost sched: seq<Slot>,
                     j: nat, links: nat, out: seq<Link>, ghost done: seq<Slot>)
    returns (out': seq<Link>, links': nat, ghost done': seq<Slot>, capped: bool)
    requires ValidTape(tape) && j < |paths|
    requires Progress(a, color, tape, Candidates(a, paths, radius), sched, j, links, out, done)
    ensures capped ==> Realises(a, color, tape, out', sched, 0)
    ensures !capped ==> j + 1 <= |Candidates(a, paths, radius)|
    ensures !capped ==> links' < MaxLinks
    ensures !capped ==> |done'| == links'
    ensures !capped ==> done' + Pending(Candidates(a, paths, radius), j + 1, links') == sched
    ensures !capped ==> Realises(a, color, tape, out', done', 0)
  {
    ghost var cs := Candidates(a, paths, radius);
    var burst := ConnectStroke(a, color, paths, j, radius, tape, links);
    ghost var e := StrokeSlots(cs, j, links);
    if links + |burst| >= MaxLinks {
      ProgressCapped(a, color, tape, cs, sched, j, links, out, done, burst);
      capped := true;
    } else {
      ProgressStep(a, color, tape, cs, sched, j, links, out, done, burst);
      capped := false;
    }
    out', links', done' := out + burst, links + |burst|, done + e;
  }

  /** `softWebConnect` with the radius as a parameter; it computes exactly `Plan`. */
  method SoftWebConnect(a: Pos, color: string, paths: seq<Stroke>, radius: real, tape: seq<Draw>)
    returns (out: seq<Link>)
    requires ValidTape(tape)
    ensures out == Plan(a, color, paths, radius, tape)
    ensures |out| <= MaxLinks
  {
    ghost var cs := Candidates(a, paths, radius);
    ghost var sched := Pending(cs, 0, 0);
    ghost var done: seq<Slot> := [];
    out := [];
    var links: nat := 0;
    ProgressInit(a, color, tape, cs);
    var j: nat := 0;
    while j < |paths|
      invariant Progress(a, color, tape, cs, sched, j, links, out, done)
    {
      var capped;
      out, links, done, capped := ConnectPass(a, color, paths, radius, tape, sched, j, links, out, done);
      if capped {
        ProgressDone(a, color, paths, radius, tape, out);
        return;
      }
      j := j + 1;
    }
    ProgressEnd(a, color, tape, cs, sched, j, links, out, done);
    ProgressDone(a, color, paths, radius, tape, out);
  }
}

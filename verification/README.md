# Soft-web sketch engine

A Dafny model of the stroke-and-history engine of the scribbler canvas.
The engine exists twice, almost line for line, in `app.v4.js` and
`app.v5.js`. The only difference between the two is the web radius:

- In `app.v4.js` the radius is the constant 50.
- In `app.v5.js` it is `parseFloat(slider) || 50`.

The model takes the radius as a parameter. The v4 engine is the instance
with radius `Geometry.DefaultRadius` (50). The v5 engine is the instance
with radius `Geometry.EffectiveRadius(slider)`.

The four parts of the engine:

- **Stroke session** (`strokes.dfy`, `session.dfy`).
  - `begin` seeds a stroke with one point and the box (x, y, x, y).
  - `extend` appends a point and widens the box in constant time. It draws
    one live segment and asks the soft-web planner for links.
  - `end` commits a stroke of more than one point, which empties the redo
    stack. Either way the session becomes idle.
  - `extend` and `end` do nothing when idle.
- **History** (`session.dfy`).
  - `undo` and `redo` move the top stroke between `paths` and `redoStack`.
    Both stacks push and pop at their end.
  - The clear button empties both stacks and drops the stroke in progress.
- **Soft-web planner** (`softweb.dfy`, `connect.dfy`). For the new point
  it walks the committed strokes in commit order.
  - A box test, with the box grown by the radius, rejects strokes cheaply.
  - For each stroke that passes, it collects the points within squared
    distance R².
  - It plans 1 + min(2, ⌊|nearby|/12⌋) links per stroke and at most 6 per
    call.
  - The plan is split into two parts:
    - a schedule: which stroke each link goes to. No randomness is involved.
    - its realisation: link k's endpoint and width come from the k-th entry
      of a tape of random draws.
  - Module `SoftWeb` defines the plan and proves its properties. Module
    `Connect` holds the loops of `softWebConnect`, and `SoftWebConnect` is
    proved to emit exactly that plan.
- **Replay plan** (`replay.dfy`). `redrawAll` emits one segment per
  consecutive pair of points of each committed stroke, in commit order.
  It skips strokes of fewer than two points. Each segment carries the
  clamped pressure of the later point of its pair. `undo` and `redo`
  repaint with this replay when a stroke moves; the clear button paints
  the canvas white.

Drawing is modelled as emitted records: `Replay.Segment` for ink,
`SoftWeb.Link` for web filaments, and `Sketch.Screen` for a repaint.

Two behaviours of the code are worth stating plainly, because the model
relies on them:

- `undo` pushes the popped stroke onto the end of `redoStack`, and `redo`
  pops from the end. So the top of the redo stack is its last element, as
  for `paths`.
- `begin` does not check whether a stroke is in progress. Calling it
  during a stroke replaces the stroke in progress, and `Sketch.BeginStroke`
  does the same.

## Model

| member | source | states |
|---|---|---|
| Geometry.D2 | app.v5.js:68 | the squared distance is never negative and is 0 when the two positions coincide |
| Geometry.Seed | app.v5.js:40 | the degenerate box of a single point is its tight bound, and it contains exactly the positions equal to the point's |
| Geometry.Widen | app.v5.js:48 | the widened box contains the new point and everything the old box contained; each side is either the old side or the new coordinate |
| Geometry.WidenKeepsTight | app.v5.js:44-48 | widening the tight box of `pts` by `q` gives the tight box of `pts + [q]`: it covers every point and each side is touched by one |
| Geometry.DiskInWindow | app.v5.js:68 | a point with d2 ≤ R² (R ≥ 0) lies in the square of half-side R around the new position |
| Geometry.SkippedMissesWindow | app.v5.js:76 | a box rejected by the grown-box test shares no point with that square |
| Geometry.SkippedIffDisjoint | app.v5.js:76 | for R ≥ 0 and a non-empty box, the box test rejects the box if and only if it shares no point with the square of half-side R around the new position |
| Geometry.PrefilterSound | app.v5.js:76-78 | if a box covers a stroke's points and the box test rejects it, every point of the stroke has d2 > R² (R ≥ 0) |
| Geometry.NegativeRadiusDefeatsPrefilter | app.v5.js:71-76 | with radius −10, the box test rejects a one-point stroke whose point coincides with the new position, even though d2 = 0 ≤ R² |
| Geometry.Clamp | app.v5.js:50 | the clamped pressure lies in [0.05, 1]; 0 maps to 1; values in range are kept; values above 1 give 1; other values below 0.05 give 0.05 |
| Geometry.ClampIdempotent | app.v5.js:50 | clamping an already clamped pressure changes nothing |
| Geometry.ClampMonotone | app.v5.js:50 | among positive pressures, a harder press never gives a smaller clamped pressure |
| Geometry.EffectiveRadius | app.v5.js:71 | the radius is the slider value unless that value parses to NaN or 0, in which case it is 50; it is never 0; it is positive when the slider value is |
| Strokes.Begin | app.v5.js:37-41 | the new stroke holds exactly the one point and the chosen style; its box contains only that position |
| Strokes.Append | app.v5.js:44-48 | the point is appended at the end; the style is kept; a tight box stays tight |
| Strokes.Grow | app.v5.js:46 | a run of extends appends the points in the order given and keeps the stroke's colour, base width and alpha |
| Strokes.GrowRecordsEveryPoint | app.v4.js:43-47 | successive extends record every point in order, keep the style and keep the box tight |
| Strokes.BeginThenExtends | app.v4.js:36-47 | after begin at q0 and k extends the stroke has the k+1 points [q0] + qs, and its box is their tight min/max |
| Replay.StrokeSegments | app.v5.js:99-110 | a stroke of fewer than 2 points replays nothing; otherwise it replays one segment fewer than it has points; segment k joins pts[k] to pts[k+1] with the clamped pressure of pts[k+1] and the stroke's style |
| Replay.RedrawAll | app.v5.js:96-113 | the replay holds exactly Σ(points − 1) segments, summed over the strokes with at least two points |
| Replay.RedrawAllAppend | app.v5.js:98 | replay of a concatenation is the concatenation of the replays, so strokes replay in commit order |
| Replay.RedrawAllSnoc | app.v5.js:96-113 | committing one more stroke appends exactly that stroke's segments to the replay |
| Replay.RedrawAllPlacesSegment | app.v5.js:104-109 | segment i of stroke j is at offset Σ(earlier strokes) + i − 1; it joins pts[i−1] to pts[i] in the stroke's style with pts[i]'s pressure |
| Replay.LiveSegmentMatchesReplay | app.v5.js:53-57 | the segment extend draws live is exactly the segment replay adds for the appended point |
| Replay.LiveTraceMatchesReplay | app.v4.js:93-110 | the segments drawn live while a stroke grows are exactly the segments a later replay draws for it |
| SoftWeb.Nearby | app.v5.js:77-78 | the nearby set is never longer than the stroke's list of points (its members are given by `SoftWeb.NearbyMembers`) |
| SoftWeb.NearbyMembers | app.v5.js:78 | the nearby set holds exactly the recorded points that pass the distance test |
| SoftWeb.InRangeIsLocal | app.v5.js:72 | for R ≥ 0, the test d2 ≤ R² accepts nothing outside the square of half-side R |
| SoftWeb.NearbyNone | app.v5.js:78-79 | when no point passes the distance test the nearby set is empty |
| SoftWeb.SkippedHasNoNearby | app.v4.js:73-80 | a stroke whose box covers its points and fails the box test has an empty nearby set |
| SoftWeb.PerStroke | app.v5.js:80 | a stroke plans 1 to 3 links: exactly 1 when it has fewer than 12 nearby points, exactly 3 when it has 24 or more |
| SoftWeb.PickIndex | app.v5.js:83 | the picked index is always an index of the nearby set |
| SoftWeb.PickIndexIsFloor | app.v5.js:83 | the picked index k is the integer part of pick·n: k ≤ pick·n < k + 1 |
| SoftWeb.LinkWidth | app.v5.js:87 | a filament width lies in [0.25, 0.7) |
| SoftWeb.Realize | app.v5.js:83-87 | a link goes from the new position, in the stroke colour and at alpha 0.38, to a member of its slot's nearby set, with a width in [0.25, 0.7) |
| SoftWeb.StrokeDemand | app.v5.js:79-80 | a nearby set asks for at most 3 links, and for at least one exactly when it is not empty |
| SoftWeb.StrokeSlots | app.v5.js:81-91 | a stroke gets min(demand, cap − links) links, hence at most min(3, remaining cap); it gets at least 1 when its nearby set is not empty and the cap is not reached; all its links draw from its own nearby set |
| SoftWeb.ScheduleFrom | app.v5.js:74-93 | the outer loop never takes the call past the cap of 6 links |
| SoftWeb.ScheduleFromSound | app.v5.js:74-93 | every scheduled link belongs to a stroke at or after the current one and carries that stroke's non-empty nearby set |
| SoftWeb.ScheduleFromOrdered | app.v5.js:74 | scheduled links are grouped by stroke in commit order |
| SoftWeb.ScheduleFromCount | app.v4.js:77-89 | the number of links is min(Σ per-stroke demands, remaining cap) |
| SoftWeb.PrefilterIsTransparent | app.v4.js:73-80 | describes `SoftWeb.Kept`, the nearby sets after the box test, in which a rejected stroke counts as one with nothing in range: with covering boxes and a distance test that accepts nothing outside the square window, the box test leaves every stroke's nearby set exactly as the scan finds it |
| SoftWeb.Schedule | app.v5.js:74-93 | one call schedules at most 6 links; each goes to a stroke whose consulted nearby set is not empty and draws from that set |
| SoftWeb.Plan | app.v5.js:70-94 | the plan has one link per scheduled slot, and link k goes to the stroke of slot k |
| SoftWeb.CandidateInRange | app.v5.js:76-79 | a stroke with a non-empty consulted set offers exactly its recorded points with d2 ≤ R² |
| SoftWeb.CandidatesAreInRange | app.v5.js:76-78 | for R ≥ 0 and covering boxes, the sets one call consults are exactly every stroke's points with d2 ≤ R² |
| SoftWeb.PlanBounds | app.v5.js:70-94 | one call plans at most 6 links, grouped by stroke in commit order; each goes from the new position in the stroke colour to a point of a committed stroke within d2 ≤ R², with a width in [0.25, 0.7) |
| SoftWeb.PlanCount | app.v5.js:80-92 | for R ≥ 0 and covering boxes, the link count is min(6, Σ over strokes with a non-empty nearby set of 1 + min(2, ⌊(nearby count)/12⌋)) |
| SoftWeb.PlanShapeIgnoresTape | app.v5.js:83-87 | any two tapes of draws give plans of the same length whose k-th links go to the same stroke; only endpoints and widths are random |
| SoftWeb.PlanIgnoresPrefilter | app.v5.js:76 | for R ≥ 0 and covering boxes the schedule equals the one built from every stroke's in-range points with no box test at all |
| Connect.CollectNearby | app.v5.js:77-78 | the scan returns the stroke's points with d2 ≤ R², in recorded order |
| Connect.DrawLinks | app.v5.js:81-91 | the k-loop emits min(n, cap − links) links; link x uses tape entry links + x and the stroke's nearby set |
| Connect.ConnectStroke | app.v5.js:75-91 | one stroke's pass, with the box test, the scan and the k-loop, emits exactly that stroke's scheduled links, realised with the next draws |
| Connect.ConnectPass | app.v5.js:75-92 | one pass of the outer loop appends the stroke's links; when they reach the cap of 6 the links so far realise the whole schedule, otherwise they realise its slots up to this stroke and the rest of the schedule is what the loop plans from the next stroke on |
| Connect.SoftWebConnect | app.v5.js:70-94 | the loop, including both cap breaks, emits exactly the planned links, and at most 6 of them |
| Sketch.BeginStroke | app.v5.js:37-41 | begin starts a stroke with one point, the box (x, y, x, y) and the chosen style; it leaves both stacks alone and keeps the session invariant |
| Sketch.Extend | app.v5.js:42-60 | when idle, extend changes nothing and emits nothing; when drawing, the stroke becomes exactly the appended one: the point at the end, colour, base width and alpha kept, the box widened by the point; it draws one segment from the previous point and plans the links; the stacks never change |
| Sketch.End | app.v5.js:62-66 | the session becomes idle; when idle it changes nothing; a stroke of more than one point is appended and empties the redo stack; otherwise both stacks are unchanged |
| Sketch.EndCommitsIff | app.v4.js:61-65 | end grows paths if and only if the stroke in progress has more than one point |
| Sketch.Undo | app.v5.js:116 | undo does nothing on an empty paths stack; otherwise it moves exactly the top stroke onto the redo stack; no stroke is created or lost |
| Sketch.Redo | app.v5.js:117 | redo does nothing on an empty redo stack; otherwise it moves exactly its top stroke back onto paths; no stroke is created or lost |
| Sketch.UndoThenRedo | app.v4.js:112-113 | undo then redo restores both stacks exactly |
| Sketch.RedoThenUndo | app.v5.js:116-117 | redo then undo restores both stacks exactly |
| Sketch.UndoAndRepaint | app.v5.js:116 | the canvas is repainted if and only if a stroke moves; the repaint is the replay of the remaining strokes, which is the old replay without exactly the undone stroke's segments |
| Sketch.RedoAndRepaint | app.v5.js:117 | the canvas is repainted if and only if a stroke moves; the repaint is the old replay followed by exactly the restored stroke's segments |
| Sketch.Clear | app.v5.js:154 | clear empties both stacks and leaves the session idle |
| Sketch.ClearAndBlank | app.v5.js:154 | clear paints a blank canvas, which is exactly the replay of the emptied history |
| Sketch.ClearedHistoryIsInert | app.v4.js:236 | after clear, undo and redo both do nothing |
| Sketch.CommitUndoCommit | app.v4.js:61-65 | commit A, commit B, undo, commit C leaves paths + [A, C] and an empty redo stack |
| Sketch.Moves | app.v5.js:42-60 | a run of extends, each with its own point, radius and draws, never touches the stacks, does nothing when idle, and while drawing draws one live segment per move |
| Sketch.MovesGrow | app.v4.js:41-59 | a run of extends grows the stroke point by point and draws exactly the live trace |
| Sketch.Scribble | app.v5.js:37-66 | begin, extends, end leaves the session idle; it commits one stroke and empties the redo stack exactly when at least one extend followed begin; otherwise both stacks are unchanged |
| Sketch.ScribbleCommits | app.v4.js:36-65 | the committed stroke holds every point in order, inside a tight box, on top of the earlier strokes, and the session keeps its invariant |
| Sketch.ScribbleReplaysLiveInk | app.v4.js:93-110 | after a committed stroke, replay draws the earlier strokes and then exactly the segments that were drawn live |
| Sketch.TwoPointScenario | app.v5.js:37-66 | begin (0,0), extend (10,0), end commits one stroke with box (0,0,10,0); its replay is one segment at pressure 1 |
| Sketch.ValidBoxesCover | app.v5.js:64 | every committed stroke's box covers its points |
| Sketch.ExtendLinks | app.v5.js:59-60 | in a reachable state with R ≥ 0, one extend plans min(6, Σ demands) links, each to a committed point within d2 ≤ R² |
| Sketch.SliderFallbackIsFixedRadius | app.v4.js:34 | a slider value that parses to NaN or 0 behaves exactly like the fixed radius 50 |

## Left out

- DOM and canvas drawing (`ctx.*`, `fillWhite`, the save link). Drawing is modelled as emitted segment and link records, and a repaint as the list of segments it draws.
- Pen, touch and keyboard event wiring, the pen-only gating and reading pressure from events.
- Pinch-zoom and pan. They only transform the display.
- localStorage preference persistence and the radius label.
- The width curve `max(0.2, baseW · press^0.7)`. It uses floating-point `pow`, so a segment carries the clamped pressure and the stroke's `baseW`, and the renderer applies the curve.
- Floating point: coordinates, pressure and radius are reals. Rounding, NaN and Infinity are not modelled, including a NaN `baseW` or `alpha` from `parseFloat`.
- `Math.random` is modelled as a tape of six draws per call, each a pair of values in [0, 1). Link k takes its endpoint pick and width draw from entry k.
- SoftWeb.PickIndex: `(x * n) | 0` is modelled as the floor of x·n. The 32-bit truncation of `| 0` would only matter for nearby sets longer than 2³¹ points.
- `drawing` and `cur` are modelled as one optional stroke. `begin` sets both, and `end` and the clear button reset both, so they always agree.
- Both stacks have their top at their last element, because `push` and `pop` work at the end of both arrays.
- Geometry.PrefilterSound: holds only for a radius that is not negative. A negative slider value shrinks the boxes and rejects strokes that do have points in range; `Geometry.NegativeRadiusDefeatsPrefilter` gives such an input. The slider's allowed range is not part of this model.
- Geometry.SkippedIffDisjoint: stated for a radius that is not negative and a box whose minimum is not above its maximum, which every box built by `begin` and `extend` satisfies.
- Geometry.ClampMonotone: stated for positive pressures only, because `p||1` maps 0 to 1 and so the clamp is not monotone at 0.
- SoftWeb.CandidatesAreInRange: stated for a radius that is not negative and boxes that cover their points, for the reason given under Geometry.PrefilterSound.
- SoftWeb.PlanCount: stated for a radius that is not negative and boxes that cover their points, for the same reason.
- SoftWeb.PlanIgnoresPrefilter: stated for a radius that is not negative and boxes that cover their points, for the same reason.
- Sketch.ExtendLinks: stated for a radius that is not negative, for the same reason.
- Sketch.Extend: requires a tape of draws and a stroke in progress with at least one point. A stroke in progress always has one, because begin seeds it.
- Sketch.Moves: its contract gives the number of live segments only; `Sketch.MovesGrow` gives the segments themselves and the grown stroke. A run collects all its ink in one list and all its links in another, so the order on the canvas, where each segment is followed by its own links, is not kept across moves.

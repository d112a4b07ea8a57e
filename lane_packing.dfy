/** The greedy lane packer of BamIntervalsPainter, as functions over the
    sequence of intervals the interval index returns for the visible window.

    The painter runs the packer twice: computeHeight measures how many lanes
    ("floors") a window needs, and renderFile places each interval on a lane
    while painting it. Both passes keep the same state: a map from lane to the
    stop of the last interval placed there (floorToPosition), the current lane
    and the highest lane used so far. They differ in which coordinates they
    compare: the measure pass uses the interval's own start and stop, the paint
    pass clips them to the visible window first, except in one comparison. */
module LanePacking {
  import opened Numbers

  /** An interval as the index reports it, in inclusive genomic coordinates. */
  datatype Interval = Interval(start: int, stop: int)

  /** The visible window [initialPosition, finalPosition] of the genome browser. */
  datatype Window = Window(initialPosition: int, finalPosition: int)

  const LanePitch: int := 23           // pixels between two lanes
  const FirstTrackPosition: int := 65  // trackPosition of lane 0
  const BottomPadding: int := 5

  // ---------------------------------------------------------------- clipping

  /** An interval clipped to the window, with the flags that say which ends were cut. */
  datatype Clipped = Clipped(start: int, stop: int, outOfRangeStart: bool, outOfRangeEnd: bool)

  /** Clips an interval to the window (the paint pass). The clipped start is the
      larger of the interval's start and the window's start, the clipped stop
      the smaller of its stop and the window's end. */
  function Clip(iv: Interval, w: Window): (c: Clipped)
    ensures c.outOfRangeStart <==> iv.start < w.initialPosition
    ensures c.outOfRangeEnd <==> iv.stop > w.finalPosition
    ensures iv.start <= c.start && w.initialPosition <= c.start
    ensures c.start == iv.start || c.start == w.initialPosition
    ensures c.stop <= iv.stop && c.stop <= w.finalPosition
    ensures c.stop == iv.stop || c.stop == w.finalPosition
    ensures w.initialPosition <= iv.start && iv.stop <= w.finalPosition ==>
              c == Clipped(iv.start, iv.stop, false, false)
  {
    var outOfRangeStart := iv.start < w.initialPosition;
    var outOfRangeEnd := iv.stop > w.finalPosition;
    Clipped(if outOfRangeStart then w.initialPosition else iv.start,
            if outOfRangeEnd then w.finalPosition else iv.stop,
            outOfRangeStart, outOfRangeEnd)
  }

  // ------------------------------------------------------------ packer state

  /** The packer's state between two intervals: floorToPosition, currentFloor
      and the highest lane used (maxFloor, or maxYposition in the paint pass). */
  datatype PackState = PackState(occupancy: map<int, int>, floor: int, maxFloor: int)

  /** Lane 0 is mapped to position 0 before the first interval. */
  const Initial: PackState := PackState(map[0 := 0], 0, 0)

  datatype Placement = Placed(lane: int) | Skipped

  /** The highest lane the packer may use: one below maxDepth, and lane 0 when
      maxDepth is below 1 (the packer then never climbs). */
  function Ceiling(maxDepth: int): int { if maxDepth >= 1 then maxDepth - 1 else 0 }

  /** The state the packer keeps: the current lane lies in 0..maxFloor, maxFloor
      does not exceed the ceiling, and exactly the lanes 0..maxFloor are mapped. */
  ghost predicate Valid(st: PackState, maxDepth: int) {
    0 <= st.floor <= st.maxFloor <= Ceiling(maxDepth) &&
    forall l :: l in st.occupancy <==> 0 <= l <= st.maxFloor
  }

  lemma InitialValid(maxDepth: int)
    ensures Valid(Initial, maxDepth)
  {
  }

  /** The descent loop: from `floor`, step down while the lane is above 0, is
      mapped, and its last interval stops before `start`. */
  function Descend(occupancy: map<int, int>, floor: int, start: int): (lane: int)
    ensures lane <= floor
    ensures 0 <= floor ==> 0 <= lane
    ensures forall l :: lane < l <= floor ==> l in occupancy && occupancy[l] < start
    ensures lane <= 0 || lane !in occupancy || start <= occupancy[lane]
    decreases floor
  {
    if floor > 0 && floor in occupancy && occupancy[floor] < start then
      Descend(occupancy, floor - 1, start)
    else
      floor
  }

  /** Records an interval on `lane`: its stop overwrites that lane's entry. */
  function Place(st: PackState, lane: int, stop: int): (PackState, Placement) {
    (PackState(st.occupancy[lane := stop], lane, Max(st.maxFloor, lane)), Placed(lane))
  }

  /** The lane decision of one iteration of the packing loop. The overlap test
      compares the current lane's last stop with `overlapStart - 1`: on an
      overlap the interval climbs one lane, or is skipped at the ceiling. The
      guard in front of the descent loop compares that same stop with
      `guardStart`, and the descent loop compares lower lanes with
      `descentStart`. An unmapped current lane (never the case, see Valid) keeps
      the interval where it is. */
  function Choose(occupancy: map<int, int>, floor: int, maxDepth: int, overlapStart: int,
                  guardStart: int, descentStart: int): Placement
  {
    if floor in occupancy then
      var lastRight := occupancy[floor];
      if lastRight >= overlapStart - 1 && floor >= maxDepth - 1 then
        Skipped
      else
        var up := if lastRight >= overlapStart - 1 then floor + 1 else floor;
        Placed(if lastRight < guardStart then Descend(occupancy, up, descentStart) else up)
    else
      Placed(floor)
  }

  /** One iteration of the packing loop: the lane decision, then the chosen
      lane records `stop`. */
  function Step(st: PackState, maxDepth: int, overlapStart: int, guardStart: int,
                descentStart: int, stop: int): (r: (PackState, Placement))
    // a skipped interval leaves the state as it was
    ensures r.1.Skipped? ==> r.0 == st
    // a placed interval changes only the entry of its own lane
    ensures r.1.Placed? ==> r.0.floor == r.1.lane && r.0.occupancy == st.occupancy[r.1.lane := stop]
    ensures r.1.Placed? ==> r.0.maxFloor == Max(st.maxFloor, r.1.lane)
    ensures Valid(st, maxDepth) ==> Valid(r.0, maxDepth)
    // overlap at the ceiling, and only there, skips the interval
    ensures Valid(st, maxDepth) ==>
      (r.1.Skipped? <==> st.occupancy[st.floor] >= overlapStart - 1 && st.floor >= maxDepth - 1)
    // an overlap below the ceiling climbs exactly one lane (unless the guard descends again)
    ensures Valid(st, maxDepth) && st.occupancy[st.floor] >= overlapStart - 1 &&
            st.occupancy[st.floor] >= guardStart && st.floor < maxDepth - 1 ==>
              r.1 == Placed(st.floor + 1)
    // without an overlap the interval never climbs
    ensures Valid(st, maxDepth) && st.occupancy[st.floor] < overlapStart - 1 ==>
              r.1.Placed? && 0 <= r.1.lane <= st.floor
  {
    match Choose(st.occupancy, st.floor, maxDepth, overlapStart, guardStart, descentStart)
    case Skipped => (st, Skipped)
    case Placed(lane) => Place(st, lane, stop)
  }

  /** An iteration of computeHeight: every comparison uses the interval's own
      start, and the lane records its own stop (the clipping it computes is
      never used). */
  function MeasureStep(st: PackState, maxDepth: int, iv: Interval): (r: (PackState, Placement))
    ensures Valid(st, maxDepth) ==> Valid(r.0, maxDepth)
    // skipped exactly when the current lane's last stop reaches start - 1 at the ceiling
    ensures Valid(st, maxDepth) ==>
      (r.1.Skipped? <==> st.occupancy[st.floor] >= iv.start - 1 && st.floor >= maxDepth - 1)
    // a placed interval becomes the current lane and records its own stop there
    ensures r.1.Placed? ==> r.0.floor == r.1.lane && r.0.occupancy == st.occupancy[r.1.lane := iv.stop]
    ensures r.1.Skipped? ==> r.0 == st
  {
    Step(st, maxDepth, iv.start, iv.start, iv.start, iv.stop)
  }

  /** An iteration of renderFile: the overlap test and the descent loop use the
      clipped start, the guard in front of the descent loop the interval's own
      start, and the lane records the clipped stop. */
  function PaintStep(st: PackState, maxDepth: int, iv: Interval, w: Window): (r: (PackState, Placement))
    ensures Valid(st, maxDepth) ==> Valid(r.0, maxDepth)
    // the overlap test uses the start clipped to the window
    ensures Valid(st, maxDepth) ==>
      (r.1.Skipped? <==> st.occupancy[st.floor] >= Max(iv.start, w.initialPosition) - 1 &&
                         st.floor >= maxDepth - 1)
    // a placed interval records its stop clipped to the window
    ensures r.1.Placed? ==> r.0.floor == r.1.lane
    ensures r.1.Placed? ==> r.0.occupancy == st.occupancy[r.1.lane := Min(iv.stop, w.finalPosition)]
    ensures r.1.Skipped? ==> r.0 == st
  {
    var c := Clip(iv, w);
    Step(st, maxDepth, c.start, iv.start, c.start, c.stop)
  }

  // ------------------------------------------------------------------ passes

  /** The state after a pass and the placement of each interval, in order. */
  datatype Pass = Pass(state: PackState, placements: seq<Placement>)

  /** The measure pass of computeHeight over the intervals in index order. */
  function MeasurePass(ivs: seq<Interval>, maxDepth: int): (p: Pass)
    ensures |p.placements| == |ivs|
    ensures Valid(p.state, maxDepth)
    ensures forall k :: 0 <= k < |ivs| && p.placements[k].Placed? ==>
              0 <= p.placements[k].lane <= p.state.maxFloor
    ensures p.state.maxFloor == 0 ||
            exists k :: 0 <= k < |ivs| && p.placements[k] == Placed(p.state.maxFloor)
  {
    if ivs == [] then
      InitialValid(maxDepth);
      Pass(Initial, [])
    else
      var prev := MeasurePass(ivs[..|ivs| - 1], maxDepth);
      var r := MeasureStep(prev.state, maxDepth, ivs[|ivs| - 1]);
      var p := Pass(r.0, prev.placements + [r.1]);
      assert forall k :: 0 <= k < |ivs| - 1 ==> p.placements[k] == prev.placements[k];
      assert p.state.maxFloor != prev.state.maxFloor ==> p.placements[|ivs| - 1] == Placed(p.state.maxFloor);
      p
  }

  /** The paint pass of renderFile over the intervals in index order. */
  function PaintPass(ivs: seq<Interval>, w: Window, maxDepth: int): (p: Pass)
    ensures |p.placements| == |ivs|
    ensures Valid(p.state, maxDepth)
    ensures forall k :: 0 <= k < |ivs| && p.placements[k].Placed? ==>
              0 <= p.placements[k].lane <= p.state.maxFloor
    ensures p.state.maxFloor == 0 ||
            exists k :: 0 <= k < |ivs| && p.placements[k] == Placed(p.state.maxFloor)
  {
    if ivs == [] then
      InitialValid(maxDepth);
      Pass(Initial, [])
    else
      var prev := PaintPass(ivs[..|ivs| - 1], w, maxDepth);
      var r := PaintStep(prev.state, maxDepth, ivs[|ivs| - 1], w);
      var p := Pass(r.0, prev.placements + [r.1]);
      assert forall k :: 0 <= k < |ivs| - 1 ==> p.placements[k] == prev.placements[k];
      assert p.state.maxFloor != prev.state.maxFloor ==> p.placements[|ivs| - 1] == Placed(p.state.maxFloor);
      p
  }

  /** One more interval of the measure pass is one more MeasureStep. */
  lemma MeasurePassExtends(ivs: seq<Interval>, n: nat, maxDepth: int)
    requires n < |ivs|
    ensures var prev := MeasurePass(ivs[..n], maxDepth);
            var r := MeasureStep(prev.state, maxDepth, ivs[n]);
            MeasurePass(ivs[..n + 1], maxDepth) == Pass(r.0, prev.placements + [r.1])
  {
    assert ivs[..n + 1][..n] == ivs[..n];
  }

  /** One more interval of the paint pass is one more PaintStep. */
  lemma PaintPassExtends(ivs: seq<Interval>, n: nat, w: Window, maxDepth: int)
    requires n < |ivs|
    ensures var prev := PaintPass(ivs[..n], w, maxDepth);
            var r := PaintStep(prev.state, maxDepth, ivs[n], w);
            PaintPass(ivs[..n + 1], w, maxDepth) == Pass(r.0, prev.placements + [r.1])
  {
    assert ivs[..n + 1][..n] == ivs[..n];
  }

  // ------------------------------------------------------------ measurements

  /** computeHeight's result for a highest lane `maxFloor`. */
  function TrackHeight(maxFloor: int): int {
    (maxFloor + 1) * 23 + BottomPadding + FirstTrackPosition
  }

  /** The vertical position renderFile draws a lane at. */
  function TrackPosition(lane: int): int {
    FirstTrackPosition + 23 * lane
  }

  /** The measured height: room for at least one lane and at most maxDepth lanes
      (one when maxDepth is below 1), plus the header and the padding. */
  lemma MeasuredHeightBounds(ivs: seq<Interval>, maxDepth: int)
    ensures var h := TrackHeight(MeasurePass(ivs, maxDepth).state.maxFloor);
            FirstTrackPosition + LanePitch + BottomPadding <= h <=
            FirstTrackPosition + BottomPadding + 23 * Max(1, maxDepth)
  {
  }

  /** A segment renderFile draws: its lane, the trackPosition it is drawn at,
      and the clipped interval. */
  datatype Stroke = Stroke(lane: int, trackPosition: int, clipped: Clipped)

  /** The segments drawn for the placed intervals, in order; skipped intervals
      draw nothing. */
  function Strokes(ivs: seq<Interval>, placements: seq<Placement>, w: Window): (s: seq<Stroke>)
    requires |placements| == |ivs|
    ensures |s| <= |ivs|
    ensures forall t :: t in s ==> t.trackPosition == TrackPosition(t.lane)
    ensures forall t :: t in s ==>
              exists k :: 0 <= k < |ivs| && placements[k] == Placed(t.lane) && t.clipped == Clip(ivs[k], w)
  {
    if ivs == [] then []
    else
      var n := |ivs| - 1;
      var before := Strokes(ivs[..n], placements[..n], w);
      match placements[n]
      case Skipped => before
      case Placed(lane) => before + [Stroke(lane, TrackPosition(lane), Clip(ivs[n], w))]
  }

  /** The number of intervals a pass placed. */
  function PlacedCount(placements: seq<Placement>): nat {
    if placements == [] then 0
    else
      var n := |placements| - 1;
      PlacedCount(placements[..n]) + (if placements[n].Placed? then 1 else 0)
  }

  /** Every placed interval, and nothing else, draws one segment: there are as
      many segments as placed intervals, and each placed interval's segment is
      among them. */
  lemma {:induction false} StrokesComplete(ivs: seq<Interval>, placements: seq<Placement>, w: Window)
    requires |placements| == |ivs|
    ensures |Strokes(ivs, placements, w)| == PlacedCount(placements)
    ensures forall k :: 0 <= k < |ivs| && placements[k].Placed? ==>
              Stroke(placements[k].lane, TrackPosition(placements[k].lane), Clip(ivs[k], w))
                in Strokes(ivs, placements, w)
  {
    if ivs != [] {
      var n := |ivs| - 1;
      StrokesComplete(ivs[..n], placements[..n], w);
      assert forall k :: 0 <= k < n ==> ivs[..n][k] == ivs[k] && placements[..n][k] == placements[k];
    }
  }

  /** The segment an interval adds to Strokes: none when it is skipped. */
  function StrokeOf(iv: Interval, pl: Placement, w: Window): seq<Stroke> {
    match pl
    case Skipped => []
    case Placed(lane) => [Stroke(lane, TrackPosition(lane), Clip(iv, w))]
  }

  /** One more interval of the paint pass draws at most one more segment. */
  lemma StrokesExtends(ivs: seq<Interval>, placements: seq<Placement>, w: Window, n: nat)
    requires n < |ivs| && |placements| == n + 1
    ensures Strokes(ivs[..n + 1], placements, w) ==
            Strokes(ivs[..n], placements[..n], w) + StrokeOf(ivs[n], placements[n], w)
  {
    assert ivs[..n + 1][..n] == ivs[..n];
  }

  /** Every segment the paint pass draws lies on a lane below maxDepth (lane 0
      when maxDepth is below 1), at that lane's trackPosition. */
  lemma PaintedLanesWithinDepth(ivs: seq<Interval>, w: Window, maxDepth: int)
    ensures forall t :: t in Strokes(ivs, PaintPass(ivs, w, maxDepth).placements, w) ==>
              0 <= t.lane <= Ceiling(maxDepth) && t.trackPosition == TrackPosition(t.lane)
  {
    var p := PaintPass(ivs, w, maxDepth);
    forall t | t in Strokes(ivs, p.placements, w)
      ensures 0 <= t.lane <= Ceiling(maxDepth)
    {
      var k :| 0 <= k < |ivs| && p.placements[k] == Placed(t.lane) && t.clipped == Clip(ivs[k], w);
    }
  }

  // ------------------------------------------------- when the passes agree

  /** A measure state and a paint state that have seen the same intervals, all
      starting inside the window: same lanes, and each paint entry is the measure
      entry clipped to the window's end. */
  ghost predicate Mirrors(m: PackState, p: PackState, finalPosition: int) {
    m.floor == p.floor && m.maxFloor == p.maxFloor &&
    (forall l :: l in m.occupancy <==> l in p.occupancy) &&
    (forall l :: l in m.occupancy ==> p.occupancy[l] == Min(m.occupancy[l], finalPosition))
  }

  lemma {:induction false} DescendMirrors(m: map<int, int>, p: map<int, int>, floor: int,
                                          start: int, finalPosition: int)
    requires start <= finalPosition
    requires forall l :: l in m <==> l in p
    requires forall l :: l in m ==> p[l] == Min(m[l], finalPosition)
    ensures Descend(m, floor, start) == Descend(p, floor, start)
    decreases floor
  {
    if floor > 0 && floor in m && m[floor] < start {
      DescendMirrors(m, p, floor - 1, start, finalPosition);
    }
  }

  lemma ChooseMirrors(m: map<int, int>, p: map<int, int>, floor: int, maxDepth: int,
                      start: int, finalPosition: int)
    requires start <= finalPosition
    requires forall l :: l in m <==> l in p
    requires forall l :: l in m ==> p[l] == Min(m[l], finalPosition)
    ensures Choose(m, floor, maxDepth, start, start, start) == Choose(p, floor, maxDepth, start, start, start)
  {
    if floor in m {
      DescendMirrors(m, p, floor + 1, start, finalPosition);
      DescendMirrors(m, p, floor, start, finalPosition);
    }
  }

  lemma StepMirrors(m: PackState, p: PackState, maxDepth: int, iv: Interval, w: Window)
    requires Mirrors(m, p, w.finalPosition)
    requires w.initialPosition <= iv.start <= w.finalPosition
    ensures MeasureStep(m, maxDepth, iv).1 == PaintStep(p, maxDepth, iv, w).1
    ensures Mirrors(MeasureStep(m, maxDepth, iv).0, PaintStep(p, maxDepth, iv, w).0, w.finalPosition)
  {
    var c := Clip(iv, w);
    assert c.start == iv.start && c.stop == Min(iv.stop, w.finalPosition);
    ChooseMirrors(m.occupancy, p.occupancy, m.floor, maxDepth, iv.start, w.finalPosition);
  }

  lemma {:induction false} PassesMirror(ivs: seq<Interval>, w: Window, maxDepth: int)
    requires 0 <= w.finalPosition
    requires forall k :: 0 <= k < |ivs| ==> w.initialPosition <= ivs[k].start <= w.finalPosition
    ensures MeasurePass(ivs, maxDepth).placements == PaintPass(ivs, w, maxDepth).placements
    ensures Mirrors(MeasurePass(ivs, maxDepth).state, PaintPass(ivs, w, maxDepth).state, w.finalPosition)
  {
    if ivs != [] {
      var n := |ivs| - 1;
      PassesMirror(ivs[..n], w, maxDepth);
      StepMirrors(MeasurePass(ivs[..n], maxDepth).state, PaintPass(ivs[..n], w, maxDepth).state,
                  maxDepth, ivs[n], w);
    }
  }

  /** When every interval starts inside the window, the two passes put every
      interval on the same lane, and the measured height is the paint pass's
      lowest drawn position plus one lane and the padding. */
  lemma PassesAgreeInsideWindow(ivs: seq<Interval>, w: Window, maxDepth: int)
    requires 0 <= w.initialPosition <= w.finalPosition
    requires forall k :: 0 <= k < |ivs| ==> w.initialPosition <= ivs[k].start <= w.finalPosition
    ensures MeasurePass(ivs, maxDepth).placements == PaintPass(ivs, w, maxDepth).placements
    ensures TrackHeight(MeasurePass(ivs, maxDepth).state.maxFloor) ==
            TrackPosition(PaintPass(ivs, w, maxDepth).state.maxFloor) + LanePitch + BottomPadding
  {
    PassesMirror(ivs, w, maxDepth);
  }

  // --------------------------------------------------------------- scenarios

  /** Window [90, 250], maxDepth 5: [100, 110] goes on lane 0, [105, 120]
      overlaps it and climbs to lane 1, [200, 210] descends back to lane 0; the
      measured height is 116 and both passes agree. */
  lemma WorkedTrace()
    ensures var ivs := [Interval(100, 110), Interval(105, 120), Interval(200, 210)];
            MeasurePass(ivs, 5).placements == [Placed(0), Placed(1), Placed(0)] &&
            PaintPass(ivs, Window(90, 250), 5).placements == [Placed(0), Placed(1), Placed(0)] &&
            TrackHeight(MeasurePass(ivs, 5).state.maxFloor) == 116
  {
    var ivs := [Interval(100, 110), Interval(105, 120), Interval(200, 210)];
    assert ivs[..2] == [Interval(100, 110), Interval(105, 120)];
    assert ivs[..2][..1] == [Interval(100, 110)];
    assert MeasurePass(ivs[..1], 5).state == PackState(map[0 := 110], 0, 0);
    assert MeasurePass(ivs[..2], 5).state == PackState(map[0 := 110, 1 := 120], 1, 1);
    assert PaintPass(ivs[..1], Window(90, 250), 5).state == PackState(map[0 := 110], 0, 0);
    assert PaintPass(ivs[..2], Window(90, 250), 5).state == PackState(map[0 := 110, 1 := 120], 1, 1);
    assert MeasurePass(ivs, 5).state == PackState(map[0 := 210, 1 := 120], 0, 1);
    assert TrackHeight(1) == 116;
  }

  /** Intervals on one lane may overlap: [40, 50] descends from lane 1 to lane 0,
      where [10, 200] still lies, because the descent loop never looks at the
      lane it steps down to. */
  lemma SameLaneMayOverlap()
    ensures var ivs := [Interval(10, 200), Interval(20, 30), Interval(40, 50)];
            MeasurePass(ivs, 5).placements == [Placed(0), Placed(1), Placed(0)] &&
            ivs[0].start <= ivs[2].start <= ivs[0].stop
  {
    var ivs := [Interval(10, 200), Interval(20, 30), Interval(40, 50)];
    assert ivs[..2] == [Interval(10, 200), Interval(20, 30)];
    assert ivs[..2][..1] == [Interval(10, 200)];
    assert MeasurePass(ivs[..1], 5).state == PackState(map[0 := 200], 0, 0);
    assert MeasurePass(ivs[..2], 5).state == PackState(map[0 := 200, 1 := 30], 1, 1);
  }

  /** The passes may disagree: with the window starting at 5, [1, 10] overlaps
      lane 0's initial position 0 in the measure pass (0 >= 1 - 1) and climbs to
      lane 1, while the paint pass tests the clipped start (0 >= 5 - 1 fails)
      and stays on lane 0. */
  lemma PassesMayDisagree()
    ensures MeasurePass([Interval(1, 10)], 5).placements == [Placed(1)]
    ensures PaintPass([Interval(1, 10)], Window(5, 100), 5).placements == [Placed(0)]
  {
    assert [Interval(1, 10)][..0] == [];
  }

  /** With maxDepth 3, the five intervals [100, 1000] .. [104, 1000], which all
      overlap each other, fill lanes 0, 1 and 2, and the last two are skipped.
      (An interval starting at 1 or below counts as overlapping the initial
      entry of lane 0, stop 0, so it starts on lane 1 instead.) */
  lemma DepthExhausted()
    ensures var ivs := [Interval(100, 1000), Interval(101, 1000), Interval(102, 1000),
                        Interval(103, 1000), Interval(104, 1000)];
            MeasurePass(ivs, 3).placements == [Placed(0), Placed(1), Placed(2), Skipped, Skipped]
  {
    var ivs := [Interval(100, 1000), Interval(101, 1000), Interval(102, 1000),
                Interval(103, 1000), Interval(104, 1000)];
    assert ivs[..4][..3] == ivs[..3];
    assert ivs[..3][..2] == ivs[..2];
    assert ivs[..2][..1] == ivs[..1];
    assert MeasurePass(ivs[..1], 3).state == PackState(map[0 := 1000], 0, 0);
    assert MeasurePass(ivs[..2], 3).state == PackState(map[0 := 1000, 1 := 1000], 1, 1);
    assert MeasurePass(ivs[..3], 3).state == PackState(map[0 := 1000, 1 := 1000, 2 := 1000], 2, 2);
    assert MeasurePass(ivs[..4], 3).state == MeasurePass(ivs[..3], 3).state;
  }

  /** An interval that only abuts the current lane's last one (it starts one
      past that stop) counts as overlapping and climbs, but the guard in front
      of the descent loop then applies too and may bring it straight back: here
      [61, 70] climbs from lane 0 to lane 1 and descends to lane 0 again. */
  lemma AbuttingIntervalMayDropBack()
    ensures var ivs := [Interval(10, 100), Interval(20, 30), Interval(25, 40),
                        Interval(50, 60), Interval(61, 70)];
            MeasurePass(ivs, 5).placements == [Placed(0), Placed(1), Placed(2), Placed(0), Placed(0)]
  {
    var ivs := [Interval(10, 100), Interval(20, 30), Interval(25, 40),
                Interval(50, 60), Interval(61, 70)];
    assert ivs[..4][..3] == ivs[..3];
    assert ivs[..3][..2] == ivs[..2];
    assert ivs[..2][..1] == ivs[..1];
    assert MeasurePass(ivs[..1], 5).state == PackState(map[0 := 100], 0, 0);
    assert MeasurePass(ivs[..2], 5).state == PackState(map[0 := 100, 1 := 30], 1, 1);
    assert MeasurePass(ivs[..3], 5).state == PackState(map[0 := 100, 1 := 30, 2 := 40], 2, 2);
    assert MeasurePass(ivs[..4], 5).state == PackState(map[0 := 60, 1 := 30, 2 := 40], 0, 2);
  }
}

/** BamIntervalsPainter: the genome-browser track that paints the intervals of
    a BAM file. The painter holds the opened interval index, a memoised track
    height and four options; computeHeight and renderFile each run the lane
    packer of module LanePacking over the intervals the index returns for the
    visible window.

    The interval index is not part of this model: Init receives the sequence
    names it reports (or None when opening it failed), and the two passes
    receive, as `query`, the intervals getOverlappingIntervals returns, in its
    order (ascending start). */
module Painter {
  import opened Wrappers
  import opened Numbers
  import opened LanePacking
  import opened TrackOptions

  datatype InitError =
    | IndexUnreadable  // the BamIntervalsIndex constructor threw an IOException
    | PoorOverlapping  // "Sequences in genome and track (...) have poor overlapping."

  /** The sequence-overlap gate of init: intersectValue < 0.5 with intersectValue
      the double quotient common / total. An empty track gives 0.0 / 0.0, which
      is NaN and compares false, so it passes. */
  function PoorOverlap(common: nat, total: nat): (poor: bool)
    ensures poor <==> total > 0 && 2 * common < total
  {
    if total == 0 then false
    else
      QuotientBelowHalf(common, total);
      (common as real) / (total as real) < 0.5
  }

  lemma QuotientBelowHalf(common: nat, total: nat)
    requires total > 0
    ensures (common as real) / (total as real) < 0.5 <==> 2 * common < total
  {
    var q, t := (common as real) / (total as real), total as real;
    assert q * t == common as real;
    assert (q - 0.5) * t == common as real - 0.5 * t;
    SignOfProduct(q - 0.5, t);
  }

  lemma SignOfProduct(x: real, t: real)
    requires t > 0.0
    ensures x < 0.0 <==> x * t < 0.0
  {
    if x < 0.0 {
      assert (-x) * t > 0.0;
    } else {
      assert x * t >= 0.0;
    }
  }

  /** The loop of init that collects the file's sequences the genome also has. */
  method CommonSequences(fileSequences: set<string>, genomeSequences: set<string>)
    returns (intersect: set<string>)
    ensures intersect == fileSequences * genomeSequences
  {
    intersect := {};
    var remaining := fileSequences;
    while remaining != {}
      invariant remaining <= fileSequences
      invariant intersect == (fileSequences - remaining) * genomeSequences
      decreases remaining
    {
      var s :| s in remaining;
      if s in genomeSequences {
        intersect := intersect + {s};
      }
      remaining := remaining - {s};
    }
  }

  /** The clipping renderFile applies to each interval before placing it: the
      start is raised to the window's start and the stop lowered to its end,
      and a flag records each end that was cut. */
  method ClipToWindow(interval: Interval, view: Window)
    returns (start: int, stop: int, outOfRangeStart: bool, outOfRangeEnd: bool)
    ensures Clipped(start, stop, outOfRangeStart, outOfRangeEnd) == Clip(interval, view)
  {
    outOfRangeEnd := false;
    outOfRangeStart := false;
    start := interval.start;
    if start < view.initialPosition {
      outOfRangeStart := true;
      start := view.initialPosition;
    }
    stop := interval.stop;
    if stop > view.finalPosition {
      outOfRangeEnd := true;
      stop := view.finalPosition;
    }
  }

  /** The lane decision both passes make for an interval (the overlap test, the
      climb or the skip at the ceiling, the guard and the descent loop), from
      the current lane `currentFloor`. */
  method ChooseLane(floorToPosition: map<int, int>, currentFloor: int, maxDepth: int,
                    overlapStart: int, guardStart: int, descentStart: int)
    returns (placement: Placement)
    ensures placement == Choose(floorToPosition, currentFloor, maxDepth, overlapStart, guardStart, descentStart)
  {
    var floor := currentFloor;
    if floor in floorToPosition {
      var lastRight := floorToPosition[floor];
      if lastRight >= overlapStart - 1 {
        if floor < maxDepth - 1 {
          floor := floor + 1;
        } else {
          return Skipped;
        }
      }
      if lastRight < guardStart {
        ghost var top := floor;
        while floor > 0 && floor in floorToPosition && floorToPosition[floor] < descentStart
          invariant Descend(floorToPosition, floor, descentStart) == Descend(floorToPosition, top, descentStart)
          decreases floor
        {
          floor := floor - 1;
        }
      }
    }
    return Placed(floor);
  }

  /** One iteration of renderFile's loop on its locals: the interval is clipped
      and gets its lane; a placed interval moves trackPosition by 23 per lane
      climbed or descended, records its clipped stop on that lane and draws one
      segment, while a skipped one changes nothing and draws nothing. */
  method PaintInterval(floorToPosition: map<int, int>, currentFloor: int, trackPosition: int,
                       maxDepth: int, interval: Interval, view: Window, ghost st: PackState)
    returns (placement: Placement, occupancy: map<int, int>, floor: int, position: int,
             drawn: seq<Stroke>)
    requires floorToPosition == st.occupancy && currentFloor == st.floor
    requires trackPosition == TrackPosition(currentFloor)
    ensures placement == PaintStep(st, maxDepth, interval, view).1
    ensures occupancy == PaintStep(st, maxDepth, interval, view).0.occupancy
    ensures floor == PaintStep(st, maxDepth, interval, view).0.floor
    ensures position == TrackPosition(floor)
    ensures drawn == StrokeOf(interval, placement, view)
  {
    var start, stop, outOfRangeStart, outOfRangeEnd := ClipToWindow(interval, view);
    placement := ChooseLane(floorToPosition, currentFloor, maxDepth, start, interval.start, start);
    occupancy, floor, position, drawn := floorToPosition, currentFloor, trackPosition, [];
    if placement.Placed? {
      position := trackPosition + 23 * (placement.lane - currentFloor);
      floor := placement.lane;
      occupancy := floorToPosition[floor := stop];
      drawn := [Stroke(floor, position, Clipped(start, stop, outOfRangeStart, outOfRangeEnd))];
    }
  }

  class BamIntervalsPainter {
    const fileName: string
    var hasIndex: bool  // whether init has opened the interval index
    var currentTrackHeight: int

    var trackColorOption: TrackOption
    var backGroundColorOption: TrackOption
    var trackNameOption: TrackOption
    var maxDepthOption: TrackOption

    /** The four option slots as one value. */
    function Options(): OptionSet
      reads this
    {
      OptionSet(trackColorOption, backGroundColorOption, trackNameOption, maxDepthOption)
    }

    /** The name slot holds a string and the depth slot its default, and no
        height is memoised while the index is closed. */
    ghost predicate Valid()
      reads this
    {
      Sound(Options()) && (!hasIndex ==> currentTrackHeight == 0)
    }

    /** A painter for a track file: no index yet, no height measured, default options. */
    constructor (fileName: string)
      ensures Valid()
      ensures this.fileName == fileName && !hasIndex && currentTrackHeight == 0
      ensures Options() == Defaults
    {
      this.fileName := fileName;
      hasIndex := false;
      currentTrackHeight := 0;
      trackNameOption := Defaults.trackName;
      trackColorOption := Defaults.trackColor;
      backGroundColorOption := Defaults.background;
      maxDepthOption := Defaults.maxDepth;
    }

    /** init: opens the index, then refuses a track of which fewer than half of
        the sequences are known to the genome. The index stays open even when
        the track is refused. */
    method Init(index: Option<set<string>>, genomeSequences: set<string>) returns (error: Option<InitError>)
      requires Valid()
      modifies this`hasIndex
      ensures Valid()
      ensures index.None? ==> error == Some(IndexUnreadable) && hasIndex == old(hasIndex)
      ensures index.Some? ==> hasIndex && (error.None? || error == Some(PoorOverlapping))
      ensures index.Some? ==>
        (error == Some(PoorOverlapping) <==>
         |index.value| > 0 && 2 * |index.value * genomeSequences| < |index.value|)
    {
      if index.None? {
        return Some(IndexUnreadable);
      }
      hasIndex := true;
      var fileSequences := index.value;
      var intersect := CommonSequences(fileSequences, genomeSequences);
      if PoorOverlap(|intersect|, |fileSequences|) {
        return Some(PoorOverlapping);
      }
      return None;
    }

    /** getMaxDepth: nothing in the painter changes the depth option, so it is
        always its default. */
    function GetMaxDepth(): (depth: int)
      reads this
      requires Valid()
      ensures depth == DefaultMaxDepth
    {
      maxDepthOption.value.number
    }

    /** getTrackName: the stored name, or the file's name when it is empty. */
    function GetTrackName(): (name: string)
      reads this
      requires Valid()
      ensures trackNameOption.value.text == "" ==> name == fileName
      ensures trackNameOption.value.text != "" ==> name == trackNameOption.value.text
    {
      var empty := IsEmptyText(trackNameOption.value);
      if empty.value then fileName else trackNameOption.value.text
    }

    /** getOptions: the four options; handing them back to setOptions changes nothing. */
    function GetOptions(): (options: seq<TrackOption>)
      reads this
      ensures options == [trackColorOption, backGroundColorOption, trackNameOption, maxDepthOption]
      ensures WellFormed(Options()) ==> MergeAll(Options(), options) == Merge(Options(), None)
    {
      if WellFormed(Options()) then
        ReapplyingListedOptions(Options());
        Listed(Options())
      else
        Listed(Options())
    }

    /** reset: forgets the memoised height. */
    method Reset()
      requires Valid()
      modifies this`currentTrackHeight
      ensures Valid()
      ensures currentTrackHeight == 0
    {
      currentTrackHeight := 0;
    }

    /** computeHeight: when no height is memoised and the index is open, runs the
        measure pass and memoises (highest lane + 1) * 23 + 5 + 65; otherwise
        returns the memoised value untouched (0 when there is no index). */
    method ComputeHeight(query: seq<Interval>) returns (height: int)
      requires Valid()
      modifies this`currentTrackHeight
      ensures Valid()
      ensures !hasIndex ==> height == 0
      ensures old(currentTrackHeight) != 0 || !hasIndex ==>
                height == old(currentTrackHeight) && currentTrackHeight == old(currentTrackHeight)
      ensures old(currentTrackHeight) == 0 && hasIndex ==>
                height == currentTrackHeight == TrackHeight(MeasurePass(query, GetMaxDepth()).state.maxFloor)
      ensures old(currentTrackHeight) == 0 && hasIndex ==>
                TrackHeight(0) <= height <= TrackHeight(DefaultMaxDepth - 1)
    {
      if currentTrackHeight == 0 && hasIndex {
        var maxDepth := GetMaxDepth();
        var floorToPosition: map<int, int> := map[0 := 0];
        var currentFloor := 0;
        var maxFloor := 0;
        var i := 0;
        while i < |query|
          invariant 0 <= i <= |query|
          invariant PackState(floorToPosition, currentFloor, maxFloor) == MeasurePass(query[..i], maxDepth).state
        {
          var interval := query[i];
          MeasurePassExtends(query, i, maxDepth);
          ghost var next := MeasureStep(PackState(floorToPosition, currentFloor, maxFloor), maxDepth, interval).0;
          i := i + 1;
          var placement := ChooseLane(floorToPosition, currentFloor, maxDepth,
                                      interval.start, interval.start, interval.start);
          if placement.Skipped? {
            continue;
          }
          currentFloor := placement.lane;
          floorToPosition := floorToPosition[currentFloor := interval.stop];
          if currentFloor > maxFloor {
            maxFloor := currentFloor;
          }
          assert PackState(floorToPosition, currentFloor, maxFloor) == next;
        }
        assert query[..|query|] == query;
        currentTrackHeight := (maxFloor + 1) * 23 + BottomPadding + FirstTrackPosition;
      }
      height := currentTrackHeight;
    }

    /** renderFile without its drawing: the paint pass over the intervals of the
        window, returning the segments it draws, the lowest position it drew at
        (maxYposition) and the final trackPosition. It first casts the track
        colour, which throws ClassCast when the colour slot holds a non-colour.
        Without an index the query throws, the exception is caught and nothing
        is drawn. */
    method RenderFile(view: Window, query: seq<Interval>)
      returns (fault: Option<Fault>, strokes: seq<Stroke>, maxYposition: int, trackPosition: int)
      requires Valid()
      // the track colour is cast before anything is drawn: a colour slot holding
      // anything but a colour or null fails there, outside the try block
      ensures fault.Some? <==> CastColor(trackColorOption.value).Failure?
      ensures fault.Some? ==> fault == Some(ClassCast) && strokes == []
      ensures fault.None? && !hasIndex ==> strokes == [] && maxYposition == FirstTrackPosition
      ensures fault.None? && hasIndex ==>
        strokes == Strokes(query, PaintPass(query, view, GetMaxDepth()).placements, view) &&
        maxYposition == TrackPosition(PaintPass(query, view, GetMaxDepth()).state.maxFloor)
      ensures fault.None? ==> trackPosition == maxYposition + FirstTrackPosition
    {
      var currentColor := CastColor(trackColorOption.value);
      if currentColor.Failure? {
        return Some(currentColor.error), [], 0, 0;
      }
      fault := None;
      var maxDepth := GetMaxDepth();
      trackPosition := FirstTrackPosition;
      var floorToPosition: map<int, int> := map[0 := 0];
      var currentFloor := 0;
      maxYposition := trackPosition;
      strokes := [];
      if hasIndex {
        var i := 0;
        ghost var done := PaintPass([], view, maxDepth);
        while i < |query|
          invariant 0 <= i <= |query|
          invariant done == PaintPass(query[..i], view, maxDepth)
          invariant floorToPosition == done.state.occupancy && currentFloor == done.state.floor
          invariant maxYposition == TrackPosition(done.state.maxFloor)
          invariant trackPosition == TrackPosition(currentFloor)
          invariant strokes == Strokes(query[..i], done.placements, view)
        {
          var interval := query[i];
          var placement, drawn;
          placement, floorToPosition, currentFloor, trackPosition, drawn :=
            PaintInterval(floorToPosition, currentFloor, trackPosition, maxDepth, interval, view, done.state);
          ghost var next := PaintStep(done.state, maxDepth, interval, view);
          PaintPassExtends(query, i, view, maxDepth);
          StrokesExtends(query, done.placements + [next.1], view, i);
          assert (done.placements + [next.1])[..i] == done.placements;
          done := Pass(next.0, done.placements + [next.1]);
          i := i + 1;
          if placement.Skipped? {
            continue;
          }
          strokes := strokes + drawn;
          if trackPosition > maxYposition {
            maxYposition := trackPosition;
          }
        }
        assert query[..|query|] == query;
      }
      trackPosition := maxYposition + FirstTrackPosition;
    }

    /** setOptions: null is ignored; otherwise fillOptions. */
    method SetOptions(options: Option<seq<TrackOption>>) returns (fault: Option<Fault>)
      requires Valid()
      modifies this`trackColorOption, this`backGroundColorOption, this`trackNameOption
      ensures Valid()
      ensures options.None? ==> fault.None? && Options() == old(Options())
      ensures options.Some? ==> Merge(Options(), fault) == MergeAll(old(Options()), options.value)
    {
      fault := None;
      if options.Some? {
        fault := FillOptions(options.value);
      }
    }

    /** fillOptions: merges the options one by one; an exception on an option's
        value stops it with the slots the earlier options left. */
    method FillOptions(options: seq<TrackOption>) returns (fault: Option<Fault>)
      requires Valid()
      modifies this`trackColorOption, this`backGroundColorOption, this`trackNameOption
      ensures Valid()
      ensures Merge(Options(), fault) == MergeAll(old(Options()), options)
    {
      var i := 0;
      while i < |options|
        invariant 0 <= i <= |options|
        invariant maxDepthOption == old(maxDepthOption)
        invariant Merge(Options(), None) == MergeAll(old(Options()), options[..i])
      {
        var option := options[i];
        assert options[..i + 1][..i] == options[..i];
        if option.name == ColorLabel {
          if option.value != Null {
            var current := CastColor(trackColorOption.value);  // getTrackColor()
            if current.Failure? {
              MergeStopsAtFault(old(Options()), options, i + 1);
              return Some(current.error);
            }
            if !(current.value.Some? && option.value == ColorValue(current.value.value)) {
              trackColorOption := option;
            }
          }
        } else if Contains(option.name, "Track name") {
          var empty := IsEmptyText(option.value);
          if empty.Failure? {
            MergeStopsAtFault(old(Options()), options, i + 1);
            return Some(empty.error);
          }
          if !empty.value {
            trackNameOption := option;
          }
        } else if StartsWith(option.name, "Background") {
          if option.value != Null {
            backGroundColorOption := option;
          }
        }
        i := i + 1;
      }
      assert options[..|options|] == options;
      fault := None;
    }
  }
}

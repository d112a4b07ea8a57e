# GC4S genome-browser BAM track painter and colour gradient, in Dafny

This project models the core of two classes of the GC4S Swing widget library:

- `BamIntervalsPainter`, the genome-browser track that draws the intervals of a
  BAM file. Its real logic is a greedy **lane packer**. It takes the intervals
  that overlap the visible window, in start order, and gives each one a
  vertical lane ("floor"). An interval that overlaps the last one on the
  current lane climbs one lane, up to `maxDepth` lanes. When the current lane is
  free again, the packer steps back down. The packer runs twice:
  - `computeHeight` measures the track height and memoises it until `reset`.
  - `renderFile` places and paints the intervals.

  The model also covers the painter's sequence-overlap gate in `init`, its four
  track options (`fillOptions`, `setOptions`, `getOptions`), `getTrackName`
  and `getMaxDepth`.
- `Gradient.createGradient`, which interpolates `numSteps` colours channel by
  channel between two colours.

Files:

- `wrappers.dfy`: `Option` (a Java reference that may be null) and `Result` (a
  call that may throw).
- `colors.dfy`: a `Color` with four channels in 0..255, the range the
  `java.awt.Color` constructor accepts.
- `gradient.dfy`: `createGradient`.
- `numbers.dfy`: integer minimum and maximum.
- `lane_packing.dfy`: the packer as pure functions. It holds one iteration
  (`Step`, with the variants `MeasureStep` and `PaintStep`), the two passes
  (`MeasurePass`, `PaintPass`), the clipping, the height and the segments
  drawn. It also holds the lemmas about the packer.
- `track_options.dfy`: the option values and the merge that `fillOptions`
  performs, with its lemmas.
- `bam_intervals_painter.dfy`: the painter as a class. `ComputeHeight`,
  `RenderFile` and `FillOptions` are loops over the query result or the option
  list. Each one is proved equal to the matching function of the two modules
  above.

Behaviour that follows the code, where a plain description of the algorithm
would say otherwise:

- **Two tests, not if/else.** The overlap test (`lastRight >= start - 1`) and
  the descent guard (`lastRight < start`) are two independent `if`s. An
  interval that starts exactly one past the current lane's stop counts as
  overlapping and climbs. The guard then also holds, so the interval may
  descend straight back (`AbuttingIntervalMayDropBack`).
- **Same-lane overlap.** Intervals on the same lane can overlap. The descent
  loop checks the lane it leaves, never the lane it steps down to
  (`SameLaneMayOverlap`).
- **Measure and paint can disagree.** The measure pass computes the clipped
  start and stop but never uses them. It compares and records the raw start
  and stop. The paint pass uses the clipped start in the overlap test and in
  the descent loop, the raw start in the descent guard, and records the
  clipped stop. The two passes can therefore put an interval on different
  lanes (`PassesMayDisagree`). They agree when every interval starts inside a
  window that starts at or after 0 (`PassesAgreeInsideWindow`).
- **Height of the worked trace.** For window [90, 250], `maxDepth` 5 and the
  intervals [100, 110], [105, 120], [200, 210], the lanes are 0, 1, 0. The
  height is (1 + 1) * 23 + 5 + 65 = 116 (`WorkedTrace`).
- **Empty track passes the gate.** A track with no sequences gives 0.0 / 0.0,
  which is NaN. NaN is not below 0.5, so `init` accepts the track.

## Model

| member | source | states |
|---|---|---|
| `LanePacking.Clip` | gc4s-genomebrowser/src/main/java/org/sing_group/gc4s/genomebrowser/painter/BamIntervalsPainter.java:121-136 | The clipped start is max(start, initialPosition), and `outOfRangeStart` holds iff start < initialPosition. The clipped stop is min(stop, finalPosition), and `outOfRangeEnd` holds iff stop > finalPosition. An interval inside the window is unchanged. |
| `Painter.ClipToWindow` | gc4s-genomebrowser/src/main/java/org/sing_group/gc4s/genomebrowser/painter/BamIntervalsPainter.java:121-136 | The in-place clipping of `renderFile` yields exactly `Clip` of the interval. |
| `LanePacking.Descend` | gc4s-genomebrowser/src/main/java/org/sing_group/gc4s/genomebrowser/painter/BamIntervalsPainter.java:157-163 | The descent never rises and never goes below 0 from a non-negative lane. Every lane it steps over is mapped and stops before `start`. The lane where it stops is lane 0, is unmapped, or is still busy at `start`. |
| `Painter.ChooseLane` | gc4s-genomebrowser/src/main/java/org/sing_group/gc4s/genomebrowser/painter/BamIntervalsPainter.java:140-165 | The overlap test, the climb or the skip, the guard and the descent loop (a `while` with its invariant) give exactly the lane decision `Choose` of the packer. |
| `LanePacking.Step` | gc4s-genomebrowser/src/main/java/org/sing_group/gc4s/genomebrowser/painter/BamIntervalsPainter.java:140-168 | A skipped interval leaves the map and the current lane unchanged. A placed interval sets only its own lane's entry to its stop. The packer invariant (current lane in 0..maxFloor ≤ maxDepth−1, lanes 0..maxFloor mapped, so `lastRight` is never null) is kept. An interval is skipped iff it overlaps at the ceiling. Below the ceiling, an overlap that the guard does not cancel climbs exactly one lane. Without an overlap the interval never climbs. |
| `LanePacking.MeasureStep` | gc4s-genomebrowser/src/main/java/org/sing_group/gc4s/genomebrowser/painter/BamIntervalsPainter.java:282-318 | One iteration of `computeHeight` keeps the packer invariant. It skips the interval iff the current lane's last stop is at least start − 1 at the ceiling. A skip changes nothing, and a placed interval becomes the current lane and records its own stop there. |
| `LanePacking.PaintStep` | gc4s-genomebrowser/src/main/java/org/sing_group/gc4s/genomebrowser/painter/BamIntervalsPainter.java:121-168 | One iteration of `renderFile` keeps the packer invariant. It skips the interval iff the current lane's last stop is at least max(start, initialPosition) − 1 at the ceiling. A skip changes nothing, and a placed interval becomes the current lane and records min(stop, finalPosition) there. |
| `LanePacking.MeasurePass` | gc4s-genomebrowser/src/main/java/org/sing_group/gc4s/genomebrowser/painter/BamIntervalsPainter.java:275-324 | With raw coordinates there is one placement per interval and the packer invariant holds after the pass. Every placed lane is at most `maxFloor`. `maxFloor` is 0 or the lane of some placed interval. |
| `LanePacking.PaintPass` | gc4s-genomebrowser/src/main/java/org/sing_group/gc4s/genomebrowser/painter/BamIntervalsPainter.java:103-168 | The same guarantees for the paint pass, which uses the clipped start and stop (raw start in the guard). |
| `LanePacking.Strokes` | gc4s-genomebrowser/src/main/java/org/sing_group/gc4s/genomebrowser/painter/BamIntervalsPainter.java:147-168 | Skipped intervals draw nothing. Each drawn segment sits at trackPosition 65 + 23·lane, comes from an interval placed on that lane, and carries that interval's clipping. |
| `LanePacking.StrokesComplete` | gc4s-genomebrowser/src/main/java/org/sing_group/gc4s/genomebrowser/painter/BamIntervalsPainter.java:140-168 | Every placed interval, and nothing else, draws one segment: there are as many segments as placed intervals, and each placed interval's segment (its lane, that lane's trackPosition, its clipping) is among them. |
| `LanePacking.PaintedLanesWithinDepth` | gc4s-genomebrowser/src/main/java/org/sing_group/gc4s/genomebrowser/painter/BamIntervalsPainter.java:146-168 | Every segment the paint pass draws lies on a lane in 0..maxDepth−1, at that lane's trackPosition. |
| `LanePacking.MeasuredHeightBounds` | gc4s-genomebrowser/src/main/java/org/sing_group/gc4s/genomebrowser/painter/BamIntervalsPainter.java:326-327 | The measured height is at least one lane plus header and padding (93), and at most maxDepth lanes plus header and padding. |
| `LanePacking.PassesMirror` | gc4s-genomebrowser/src/main/java/org/sing_group/gc4s/genomebrowser/painter/BamIntervalsPainter.java:140-168 | When every start lies in the window and the window ends at or after 0, both passes make the same placements. Their maps agree up to the clipping of each stop to the window's end. |
| `LanePacking.PassesAgreeInsideWindow` | gc4s-genomebrowser/src/main/java/org/sing_group/gc4s/genomebrowser/painter/BamIntervalsPainter.java:242-251 | When every start lies in a window that starts at or after 0, the two passes place every interval alike. The measured height is the paint pass's lowest lane position plus one lane and the padding. |
| `LanePacking.WorkedTrace` | gc4s-genomebrowser/src/main/java/org/sing_group/gc4s/genomebrowser/painter/BamIntervalsPainter.java:291-327 | Window [90,250], maxDepth 5, intervals [100,110], [105,120], [200,210]: lanes 0, 1, 0 in both passes, and height 116. |
| `LanePacking.SameLaneMayOverlap` | gc4s-genomebrowser/src/main/java/org/sing_group/gc4s/genomebrowser/painter/BamIntervalsPainter.java:303-312 | [10,200], [20,30], [40,50] get lanes 0, 1, 0, so [40,50] lies on lane 0 inside [10,200]. |
| `LanePacking.PassesMayDisagree` | gc4s-genomebrowser/src/main/java/org/sing_group/gc4s/genomebrowser/painter/BamIntervalsPainter.java:143 | With the window starting at 5, interval [1,10] goes on lane 1 in the measure pass and on lane 0 in the paint pass. |
| `LanePacking.DepthExhausted` | gc4s-genomebrowser/src/main/java/org/sing_group/gc4s/genomebrowser/painter/BamIntervalsPainter.java:294-300 | With maxDepth 3, the intervals [100,1000], [101,1000], [102,1000], [103,1000], [104,1000] get lanes 0, 1, 2 and the last two are skipped. |
| `LanePacking.AbuttingIntervalMayDropBack` | gc4s-genomebrowser/src/main/java/org/sing_group/gc4s/genomebrowser/painter/BamIntervalsPainter.java:294-313 | For [10,100], [20,30], [25,40], [50,60], [61,70] with maxDepth 5 the lanes are 0, 1, 2, 0, 0: [61,70] starts one past lane 0's stop 60, counts as overlapping and climbs, and the guard sends it straight back to lane 0. |
| `Painter.PaintInterval` | gc4s-genomebrowser/src/main/java/org/sing_group/gc4s/genomebrowser/painter/BamIntervalsPainter.java:120-168 | One iteration of the `renderFile` loop on its locals makes the lane decision of `PaintStep`, leaves its map and current lane, keeps trackPosition at 65 + 23·currentFloor, and draws exactly the interval's segment when it is placed. |
| `Painter.BamIntervalsPainter.ComputeHeight` | gc4s-genomebrowser/src/main/java/org/sing_group/gc4s/genomebrowser/painter/BamIntervalsPainter.java:266-330 | Keeps the painter invariant, under which no height is memoised while the index is closed. A non-zero memoised height, or a missing index, returns the field unchanged, so 0 without an index. Otherwise the loop's result, memoised and returned, is (maxFloor+1)·23+5+65 of `MeasurePass`, between 93 and 185. |
| `Painter.BamIntervalsPainter.RenderFile` | gc4s-genomebrowser/src/main/java/org/sing_group/gc4s/genomebrowser/painter/BamIntervalsPainter.java:95-251 | The track colour is cast first: a colour slot holding a non-colour raises ClassCast, uncaught, and nothing is drawn. Otherwise the loop draws exactly `Strokes` of `PaintPass`, its maxYposition is the position of the highest lane used, and the final trackPosition is maxYposition + 65. Without an index the query throws, the exception is caught and nothing is drawn. |
| `Painter.BamIntervalsPainter.Reset` | gc4s-genomebrowser/src/main/java/org/sing_group/gc4s/genomebrowser/painter/BamIntervalsPainter.java:261-264 | The memoised height becomes 0, and the painter invariant is kept. |
| `Painter.PoorOverlap` | gc4s-genomebrowser/src/main/java/org/sing_group/gc4s/genomebrowser/painter/BamIntervalsPainter.java:70-73 | The quotient common/total is below 0.5 iff total > 0 and 2·common < total. An empty track gives NaN and is not refused. |
| `Painter.CommonSequences` | gc4s-genomebrowser/src/main/java/org/sing_group/gc4s/genomebrowser/painter/BamIntervalsPainter.java:62-69 | The loop collects exactly the intersection of the file's and the genome's sequence names. |
| `Painter.BamIntervalsPainter.Init` | gc4s-genomebrowser/src/main/java/org/sing_group/gc4s/genomebrowser/painter/BamIntervalsPainter.java:56-77 | An unreadable index fails and leaves the painter as it was. Otherwise the index is kept, and init fails with poor overlapping iff the file has sequences and fewer than half of them are in the genome. The painter invariant is kept. |
| `Painter.BamIntervalsPainter.constructor` | gc4s-genomebrowser/src/main/java/org/sing_group/gc4s/genomebrowser/painter/BamIntervalsPainter.java:332-437 | A new painter has no index, no memoised height, null colours, an empty name and max depth 5. |
| `Painter.BamIntervalsPainter.GetMaxDepth` | gc4s-genomebrowser/src/main/java/org/sing_group/gc4s/genomebrowser/painter/BamIntervalsPainter.java:449-451 | The depth is 5, since no operation of the painter replaces the depth option. |
| `Painter.BamIntervalsPainter.GetTrackName` | gc4s-genomebrowser/src/main/java/org/sing_group/gc4s/genomebrowser/painter/BamIntervalsPainter.java:487-495 | The stored name, or the file's name when the stored name is empty. |
| `Painter.BamIntervalsPainter.GetOptions` | gc4s-genomebrowser/src/main/java/org/sing_group/gc4s/genomebrowser/painter/BamIntervalsPainter.java:79-85 | Exactly the colour, background, name and depth options, in that order. Handing them back to `fillOptions` changes nothing. |
| `Painter.BamIntervalsPainter.SetOptions` | gc4s-genomebrowser/src/main/java/org/sing_group/gc4s/genomebrowser/painter/BamIntervalsPainter.java:453-458 | Null options are a no-op. Otherwise the painter's options and fault are those of `MergeAll`. |
| `Painter.BamIntervalsPainter.FillOptions` | gc4s-genomebrowser/src/main/java/org/sing_group/gc4s/genomebrowser/painter/BamIntervalsPainter.java:460-479 | The loop leaves the options and the exception of `MergeAll`, keeps a string track name, and never touches the depth option. |
| `TrackOptions.CastColor` | gc4s-genomebrowser/src/main/java/org/sing_group/gc4s/genomebrowser/painter/BamIntervalsPainter.java:444-447 | `(Color) value` passes null and colours and raises ClassCast for anything else. |
| `TrackOptions.IsEmptyText` | gc4s-genomebrowser/src/main/java/org/sing_group/gc4s/genomebrowser/painter/BamIntervalsPainter.java:470 | `((String) value).equals("")` succeeds exactly on strings and holds exactly for the empty string. A null value is a NullPointer and any other non-string is a ClassCast. |
| `TrackOptions.MergeOne` | gc4s-genomebrowser/src/main/java/org/sing_group/gc4s/genomebrowser/painter/BamIntervalsPainter.java:461-477 | One option replaces at most one slot and never the depth. "Color" replaces the colour only when non-null and different from the current colour. A name containing "Track name" replaces the name only with a non-empty string. A name starting with "Background" replaces the background only when non-null. The exceptions arise exactly from the casts: a non-null "Color" option over a colour slot holding a non-colour is a ClassCast, and a "Track name" option with a null value is a NullPointer and with any other non-string a ClassCast. |
| `TrackOptions.MergeAll` | gc4s-genomebrowser/src/main/java/org/sing_group/gc4s/genomebrowser/painter/BamIntervalsPainter.java:460-479 | The depth slot is unchanged, a string track name is kept, and every slot holds either its old option or one of the options given. |
| `TrackOptions.MergeStopsAtFault` | gc4s-genomebrowser/src/main/java/org/sing_group/gc4s/genomebrowser/painter/BamIntervalsPainter.java:461 | Once an option throws, the options after it change nothing. |
| `TrackOptions.LastAcceptedOptionWins` | gc4s-genomebrowser/src/main/java/org/sing_group/gc4s/genomebrowser/painter/BamIntervalsPainter.java:460-479 | Options are processed in order. After a merge without exceptions, each slot holds the last option accepted for it, or its old option when none was. |
| `TrackOptions.ReapplyingListedOptions` | gc4s-genomebrowser/src/main/java/org/sing_group/gc4s/genomebrowser/painter/BamIntervalsPainter.java:79-85 | Merging a painter's own listed options back leaves them unchanged, with no exception. |
| `TrackOptions.DefaultsWellFormed` | gc4s-genomebrowser/src/main/java/org/sing_group/gc4s/genomebrowser/painter/BamIntervalsPainter.java:334-418 | The default option names route each option back to its own slot. "Max depth: " matches none of the merge tests. |
| `Gradient.StepColor` | gc4s/src/main/java/org/sing_group/gc4s/utilities/Gradient.java:57-62 | Every channel of the colour at a step lies between the from and to values, so the Color constructor accepts it. |
| `Gradient.CreateGradient` | gc4s/src/main/java/org/sing_group/gc4s/utilities/Gradient.java:37-67 | Fails iff numSteps < 1. One step gives exactly [colorFrom]. Otherwise the result has numSteps colours, starts at colorFrom and ends at colorTo. Every channel stays between its from and to values and moves monotonically towards the to value. |
| `Gradient.ExactChannelIsInterpolation` | gc4s/src/main/java/org/sing_group/gc4s/utilities/Gradient.java:49 | The channel expression in exact arithmetic meets the endpoint, bounds and monotonicity constraints the model places on the per-step channel. |
| `Gradient.ExactGradientExample` | gc4s/src/main/java/org/sing_group/gc4s/utilities/Gradient.java:43-66 | In exact arithmetic, black to white in three steps passes through grey 127. |

## Left out

- Drawing in `renderFile`: lines, end ticks, labels, per-nucleotide drawing and
  hit regions. These are `Graphics2D` calls on `double` screen coordinates, as
  is `computeTrackLinePosition`. The model returns the segments it would draw.
- `BamIntervalsIndex`: its `getSequences` result and the intervals of
  `getOverlappingIntervals` are parameters. The index's start order is not
  needed by any proof, so it is not a precondition.
- Of the exceptions in `renderFile`, the model covers the uncaught ClassCast of
  the colour cast at its start and the caught one of the missing index. An
  exception thrown halfway through drawing is not modelled.
- The lane decision is shared: both passes call `ChooseLane`. In the source,
  each pass has its own copy of that code, and the copies differ only in the
  coordinates they compare. `ChooseLane` takes those coordinates as
  parameters. `RenderFile` moves trackPosition by 23 per lane once the lane is
  chosen. The source moves it step by step during the climb and the descent.
  After every interval, trackPosition is 65 + 23·currentFloor either way.
- `synchronized` on `computeHeight` is left out, since the model has no
  concurrency.
- `Gradient.CreateGradient`: the exact intermediate channel values depend on
  `double` rounding. The per-step channel is a parameter constrained by
  `IsInterpolation` (endpoints, bounds, monotone), so intermediate values are
  not pinned down.
- Options are values here, while the source shares option objects with the
  host. A host that calls `setValue` on an option returned by `getOptions` can
  change the max depth. The model keeps it at 5. The packer functions take
  `maxDepth` as a parameter and hold for any value.
- `setTrackColor`, `getTrackColor` and `getBackgroundColor` are left out as
  plain accessors. The cast in `getTrackColor` is `CastColor`.
- `paint` is left out: it draws the track name, then calls `renderFile`.
- `Painter.PoorOverlap` uses the exact quotient instead of the `double`
  quotient. For set sizes below 2^53 the two agree on the comparison with 0.5.
- Arithmetic is unbounded. The source's `int` trackPosition and `long`
  coordinates cannot overflow for genome coordinates and at most `maxDepth`
  lanes.

/** The track options of BamIntervalsPainter (track colour, background colour,
    track name, maximum depth) and how fillOptions merges a host-supplied list
    of options into them.

    Each option is a name and a value held as a Java Object; the model gives
    the value a closed set of shapes and turns the casts and calls the source
    makes on it into Fault results. Options are compared and stored by value. */
module TrackOptions {
  import opened Wrappers
  import opened Colors

  /** The value an option holds. */
  datatype Value = Null | ColorValue(color: Color) | Text(text: string) | Number(number: int)

  datatype TrackOption = TrackOption(name: string, value: Value)

  /** The runtime exceptions the source can raise on an option's value: a call
      on null, or a cast to the wrong class. */
  datatype Fault = NullPointer | ClassCast

  const TrackNameLabel: string := "Track name (empty takes default value): "
  const ColorLabel: string := "Color"
  const BackgroundLabel: string := "Background Color: "
  const MaxDepthLabel: string := "Max depth: "
  const DefaultMaxDepth: int := 5

  /** The four option slots of a painter. */
  datatype OptionSet = OptionSet(trackColor: TrackOption, background: TrackOption,
                                 trackName: TrackOption, maxDepth: TrackOption)

  /** The options a new painter starts with: no colours, an empty name, depth 5. */
  const Defaults: OptionSet :=
    OptionSet(TrackOption(ColorLabel, Null), TrackOption(BackgroundLabel, Null),
              TrackOption(TrackNameLabel, Text("")), TrackOption(MaxDepthLabel, Number(DefaultMaxDepth)))

  /** getOptions: the slots in the order the source lists them. */
  function Listed(s: OptionSet): seq<TrackOption> {
    [s.trackColor, s.background, s.trackName, s.maxDepth]
  }

  // ------------------------------------------------------------ name tests

  predicate StartsWith(s: string, prefix: string) {
    |prefix| <= |s| && s[..|prefix|] == prefix
  }

  predicate Contains(s: string, part: string)
    decreases |s|
  {
    StartsWith(s, part) || (|s| > 0 && Contains(s[1..], part))
  }

  lemma {:induction false} NotContainedWithoutFirstChar(s: string, part: string)
    requires |part| > 0 && part[0] !in s
    ensures !Contains(s, part)
    decreases |s|
  {
    assert !StartsWith(s, part) by {
      if |part| <= |s| {
        assert s[0] in s;
        assert s[..|part|][0] == s[0];
      }
    }
    if |s| > 0 {
      NotContainedWithoutFirstChar(s[1..], part);
    }
  }

  // ------------------------------------------------------------------ casts

  /** (Color) value: null and colours pass, anything else is a ClassCast. */
  function CastColor(v: Value): (r: Result<Option<Color>, Fault>)
    ensures r.Success? <==> v.Null? || v.ColorValue?
    ensures r == Success(None) <==> v == Null
    ensures v.ColorValue? ==> r == Success(Some(v.color))
    ensures r.Failure? ==> r.error == ClassCast
  {
    match v
    case Null => Success(None)
    case ColorValue(c) => Success(Some(c))
    case _ => Failure(ClassCast)
  }

  /** ((String) value).equals("") and ((String) value).isEmpty(): a null value
      is a NullPointer, a value that is not a string a ClassCast. */
  function IsEmptyText(v: Value): (r: Result<bool, Fault>)
    ensures r.Success? <==> v.Text?
    ensures r.Success? ==> (r.value <==> v.text == "")
    ensures v.Null? ==> r == Failure(NullPointer)
    ensures !v.Null? && !v.Text? ==> r == Failure(ClassCast)
  {
    match v
    case Null => Failure(NullPointer)
    case Text(t) => Success(t == "")
    case _ => Failure(ClassCast)
  }

  // ---------------------------------------------------------------- merging

  /** One iteration of fillOptions. The option named exactly "Color" replaces the
      track colour when its value is not null and differs from the current
      colour; otherwise an option whose name contains "Track name" replaces the
      name when its value is a non-empty string; otherwise an option whose name
      starts with "Background" replaces the background when its value is not
      null. Nothing replaces the maximum depth. */
  function MergeOne(s: OptionSet, o: TrackOption): (r: Result<OptionSet, Fault>)
    ensures r.Success? ==> r.value.maxDepth == s.maxDepth
    ensures r.Success? ==>
      r.value == s || r.value == s.(trackColor := o) || r.value == s.(trackName := o) ||
      r.value == s.(background := o)
    ensures r.Success? && r.value.trackColor != s.trackColor ==>
      o.name == ColorLabel && o.value != Null && o.value != s.trackColor.value
    ensures r.Success? && r.value.trackName != s.trackName ==>
      Contains(o.name, "Track name") && o.value.Text? && o.value.text != ""
    ensures r.Success? && r.value.background != s.background ==>
      StartsWith(o.name, "Background") && o.value != Null
    ensures r.Failure? ==>
      (o.name == ColorLabel && o.value != Null && CastColor(s.trackColor.value).Failure?) ||
      (o.name != ColorLabel && Contains(o.name, "Track name") && !o.value.Text?)
    // and each of those casts does throw: the current colour's cast for a
    // non-null "Color" option, the name's (String) cast for a "Track name" option
    ensures o.name == ColorLabel && o.value != Null && CastColor(s.trackColor.value).Failure? ==>
      r == Failure(ClassCast)
    ensures o.name != ColorLabel && Contains(o.name, "Track name") && o.value.Null? ==>
      r == Failure(NullPointer)
    ensures o.name != ColorLabel && Contains(o.name, "Track name") && !o.value.Null? && !o.value.Text? ==>
      r == Failure(ClassCast)
  {
    if o.name == ColorLabel then
      if o.value == Null then Success(s)
      else
        match CastColor(s.trackColor.value)
        case Failure(f) => Failure(f)
        case Success(current) =>
          var same := match current case None => false case Some(c) => o.value == ColorValue(c);
          if same then Success(s) else Success(s.(trackColor := o))
    else if Contains(o.name, "Track name") then
      match IsEmptyText(o.value)
      case Failure(f) => Failure(f)
      case Success(empty) => if empty then Success(s) else Success(s.(trackName := o))
    else if StartsWith(o.name, "Background") then
      if o.value != Null then Success(s.(background := o)) else Success(s)
    else
      Success(s)
  }

  /** The slots after fillOptions, and the exception that stopped it, if any:
      a fault leaves the slots as the options before it made them. */
  datatype Merge = Merge(options: OptionSet, fault: Option<Fault>)

  /** The option slots a painter holds keep a string as the track name and the
      default maximum depth. */
  predicate Sound(s: OptionSet) {
    s.trackName.value.Text? && s.maxDepth == Defaults.maxDepth
  }

  /** fillOptions over a list of options, in order. */
  function MergeAll(s: OptionSet, opts: seq<TrackOption>): (m: Merge)
    ensures m.options.maxDepth == s.maxDepth
    ensures Sound(s) ==> Sound(m.options)
    ensures m.options.trackName == s.trackName || m.options.trackName in opts
    ensures m.options.background == s.background || m.options.background in opts
    ensures m.options.trackColor == s.trackColor || m.options.trackColor in opts
  {
    if opts == [] then Merge(s, None)
    else
      var prev := MergeAll(s, opts[..|opts| - 1]);
      if prev.fault.Some? then prev
      else
        match MergeOne(prev.options, opts[|opts| - 1])
        case Failure(f) => Merge(prev.options, Some(f))
        case Success(t) => Merge(t, None)
  }

  lemma MergeFaultSticks(s: OptionSet, opts: seq<TrackOption>, n: nat)
    requires n <= |opts|
    requires MergeAll(s, opts).fault.None?
    ensures MergeAll(s, opts[..n]).fault.None?
    decreases |opts|
  {
    if n < |opts| {
      assert opts[..|opts| - 1][..n] == opts[..n];
      MergeFaultSticks(s, opts[..|opts| - 1], n);
    } else {
      assert opts[..n] == opts;
    }
  }

  /** An exception ends fillOptions: the options after the one that raised it are never looked at. */
  lemma {:induction false} MergeStopsAtFault(s: OptionSet, opts: seq<TrackOption>, n: nat)
    requires n <= |opts|
    requires MergeAll(s, opts[..n]).fault.Some?
    ensures MergeAll(s, opts) == MergeAll(s, opts[..n])
    decreases |opts|
  {
    if n < |opts| {
      assert opts[..|opts| - 1][..n] == opts[..n];
      MergeStopsAtFault(s, opts[..|opts| - 1], n);
    } else {
      assert opts[..n] == opts;
    }
  }

  // ----------------------------------------------------- last option wins

  datatype Slot = ColorSlot | NameSlot | BackgroundSlot

  /** Whether fillOptions takes `o` for `slot` (the colour test leaves out "differs
      from the current colour": an equal option would leave an equal slot). */
  predicate Accepts(slot: Slot, o: TrackOption) {
    match slot
    case ColorSlot => o.name == ColorLabel && o.value != Null
    case NameSlot => o.name != ColorLabel && Contains(o.name, "Track name") && o.value.Text? && o.value.text != ""
    case BackgroundSlot =>
      o.name != ColorLabel && !Contains(o.name, "Track name") && StartsWith(o.name, "Background") && o.value != Null
  }

  /** The last option of `opts` accepted for `slot`, or `fallback` when there is none. */
  function Latest(opts: seq<TrackOption>, slot: Slot, fallback: TrackOption): (o: TrackOption)
    ensures o == fallback || (o in opts && Accepts(slot, o))
  {
    if opts == [] then fallback
    else if Accepts(slot, opts[|opts| - 1]) then opts[|opts| - 1]
    else Latest(opts[..|opts| - 1], slot, fallback)
  }

  /** Options are processed in order: when fillOptions runs to the end, each
      slot holds the last option accepted for it, or its old option when none was. */
  lemma {:induction false} LastAcceptedOptionWins(s: OptionSet, opts: seq<TrackOption>)
    requires s.trackColor.name == ColorLabel
    requires MergeAll(s, opts).fault.None?
    ensures MergeAll(s, opts).options.trackColor == Latest(opts, ColorSlot, s.trackColor)
    ensures MergeAll(s, opts).options.trackName == Latest(opts, NameSlot, s.trackName)
    ensures MergeAll(s, opts).options.background == Latest(opts, BackgroundSlot, s.background)
    decreases |opts|
  {
    if opts != [] {
      var n := |opts| - 1;
      var o := opts[n];
      MergeFaultSticks(s, opts, n);
      LastAcceptedOptionWins(s, opts[..n]);
      var prev := MergeAll(s, opts[..n]).options;
      var color := Latest(opts[..n], ColorSlot, s.trackColor);
      assert prev.trackColor.name == ColorLabel;
      var r := MergeOne(prev, o);
      assert r.Success?;
      if Accepts(ColorSlot, o) && r.value.trackColor == prev.trackColor {
        assert o.value == prev.trackColor.value;
        assert o == prev.trackColor;
      }
    }
  }

  // --------------------------------------------------- options round trip

  /** Slots whose names route each option back to its own slot, with a colour
      slot holding null or a colour. */
  predicate WellFormed(s: OptionSet) {
    s.trackColor.name == ColorLabel && (s.trackColor.value.Null? || s.trackColor.value.ColorValue?) &&
    s.trackName.name != ColorLabel && Contains(s.trackName.name, "Track name") && s.trackName.value.Text? &&
    s.background.name != ColorLabel && !Contains(s.background.name, "Track name") &&
    StartsWith(s.background.name, "Background") &&
    s.maxDepth.name != ColorLabel && !Contains(s.maxDepth.name, "Track name") &&
    !StartsWith(s.maxDepth.name, "Background")
  }

  lemma LabelsRouteToTheirSlots()
    ensures Contains(TrackNameLabel, "Track name")
    ensures StartsWith(BackgroundLabel, "Background")
    ensures !StartsWith(MaxDepthLabel, "Background")
  {
    assert TrackNameLabel[..10] == "Track name";
    assert MaxDepthLabel[0] != 'B';
  }

  lemma BackgroundLabelWithoutTrackName()
    ensures !Contains(BackgroundLabel, "Track name")
  {
    assert 'T' !in BackgroundLabel;
    NotContainedWithoutFirstChar(BackgroundLabel, "Track name");
  }

  lemma MaxDepthLabelWithoutTrackName()
    ensures !Contains(MaxDepthLabel, "Track name")
  {
    assert 'T' !in MaxDepthLabel;
    NotContainedWithoutFirstChar(MaxDepthLabel, "Track name");
  }

  lemma DefaultsWellFormed()
    ensures WellFormed(Defaults)
  {
    LabelsRouteToTheirSlots();
    BackgroundLabelWithoutTrackName();
    MaxDepthLabelWithoutTrackName();
  }

  /** Handing a painter's own options back to fillOptions changes nothing. */
  lemma ReapplyingListedOptions(s: OptionSet)
    requires WellFormed(s)
    ensures MergeAll(s, Listed(s)) == Merge(s, None)
  {
    var opts := Listed(s);
    assert opts[..3] == [s.trackColor, s.background, s.trackName];
    assert opts[..3][..2] == [s.trackColor, s.background];
    assert opts[..3][..2][..1] == [s.trackColor];
    assert MergeOne(s, s.trackColor) == Success(s);
    assert MergeOne(s, s.background) == Success(s);
    assert MergeOne(s, s.trackName) == Success(s);
    assert MergeOne(s, s.maxDepth) == Success(s);
    assert MergeAll(s, opts[..3][..2][..1][..0]) == Merge(s, None);
    assert MergeAll(s, opts[..3][..2][..1]) == Merge(s, None);
    assert MergeAll(s, opts[..3][..2]) == Merge(s, None);
    assert MergeAll(s, opts[..3]) == Merge(s, None);
  }
}

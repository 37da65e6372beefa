/**
 * The `VidToMid` class of VidToMid.kt: its settings, the frame rate after skipping, the three
 * entry points that set them (`getOffsets`, `mergeImages`, `imageToMidi`), and
 * `longImageToMidi`, which turns the stitched long image into a MIDI track: key borders,
 * lens correction, scaling to pixels, note detection, `shiftTimelineToStart`, the play speed
 * and `createMidi`.
 */
module VideoToMidi {
  import opened Results
  import opened Spans
  import opened Sequences
  import opened Sorting
  import opened Numbers
  import opened Midi
  import opened Keyboard
  import opened Calibration
  import opened Offsets
  import opened NoteDetection

  // settings

  /** The settings `longImageToMidi` reads: the key range, the key table (`KEY_DIMENSIONS`),
      the share of the median an offset may differ by, and the lens correction. */
  datatype Config = Config(keyStart: char, keyStartNum: int, keyEnd: char, keyEndNum: int,
                           keyDimensions: seq<KeyShape>, maxImageDiff: real,
                           distCoeff: real, distOrigin: real)

  /** The settings a `VidToMid` starts with: the 88 keys from A of octave -3 to C of octave 5,
      the simple key table, and the values for Patrick Pietschmann's videos. */
  function DefaultConfig(): Config
  {
    Config('a', -3, 'c', 5, SimpleKeyDimensions(), 0.50, 0.043, 0.47)
  }

  /** The default of `imageToMidi`'s `midiRes`. */
  const DefaultMidiRes := 480.0

  /** A key table of the usual white and black pattern with positive white widths, and a lens
      correction that keeps some of the keyboard. */
  predicate ValidConfig(c: Config)
  {
    StandardPattern(c.keyDimensions) && PositiveWhiteWidths(c.keyDimensions)
    && NewLength(c.distOrigin, c.distCoeff) != 0.0
  }

  /** The range passes `checkBorderKeys`. */
  predicate RangeAccepted(c: Config)
  {
    CheckBorderKeys(c.keyStartNum, c.keyEndNum, c.keyStart, c.keyEnd).None?
  }

  /** The key borders of the configured range in keyboard units. */
  function ConfiguredLayout(c: Config): Layout
    requires RangeAccepted(c)
  {
    Walk(c.keyDimensions, KeyIndices(KeyCode(c.keyStart), c.keyStartNum, KeyCode(c.keyEnd), c.keyEndNum))
  }

  /** An accepted range gives a keyboard of positive width whose widest right edge is
      positive. */
  lemma ConfiguredKeyboard(c: Config)
    requires ValidConfig(c) && RangeAccepted(c)
    ensures var l := ConfiguredLayout(c);
      l.borders != [] && l.width > 0.0 && MaxRight(l.borders) > 0.0
  {
    var l := ConfiguredLayout(c);
    KeyboardWidthPositive(c.keyDimensions, c.keyStart, c.keyStartNum, c.keyEnd, c.keyEndNum);
    KeyboardEdges(c.keyDimensions, c.keyStart, c.keyStartNum, c.keyEnd, c.keyEndNum);
    var rights := Map(l.borders, Right);
    assert rights[|rights| - 1] == l.width;
    assert Max(rights) >= rights[|rights| - 1];
  }

  /** The default settings are valid and give the piano's 88 keys. */
  lemma DefaultConfigSpec()
    ensures ValidConfig(DefaultConfig()) && RangeAccepted(DefaultConfig())
    ensures |ConfiguredLayout(DefaultConfig()).borders| == 88
  {
    TablesAreStandard();
    PianoKeyboard(SimpleKeyDimensions());
  }

  // shiftTimelineToStart

  /** The sort key of `sortedBy { it.pos }` and the selector of `minOf { it.pos }`. */
  function Pos(e: KeyEvent): real
  {
    e.pos
  }

  function ShiftBy(offset: real): KeyEvent -> KeyEvent
  {
    (e: KeyEvent) => KeyEvent(e.pos - offset, e.key, e.pressed, e.hand)
  }

  /** `shiftTimelineToStart`: every event moved down by the lowest position. */
  function ShiftToStart(timeline: seq<KeyEvent>): seq<KeyEvent>
  {
    if timeline == [] then timeline else Map(timeline, ShiftBy(Min(Map(timeline, Pos))))
  }

  /** Shifting keeps the number of events and each event's key, kind and hand, lowers every
      position by the lowest one, so that the lowest becomes exactly 0, and keeps the order of
      any two positions. */
  lemma ShiftToStartSpec(timeline: seq<KeyEvent>)
    ensures var r := ShiftToStart(timeline);
      |r| == |timeline|
      && (forall i :: 0 <= i < |r| ==>
            r[i].key == timeline[i].key && r[i].pressed == timeline[i].pressed && r[i].hand == timeline[i].hand)
      && (timeline != [] ==> forall i :: 0 <= i < |r| ==> r[i].pos == timeline[i].pos - Min(Map(timeline, Pos)))
      && (forall i :: 0 <= i < |r| ==> r[i].pos >= 0.0)
      && (timeline != [] ==> exists i :: 0 <= i < |r| && r[i].pos == 0.0)
      && (forall i, j :: 0 <= i < |r| && 0 <= j < |r| ==> (r[i].pos <= r[j].pos <==> timeline[i].pos <= timeline[j].pos))
  {
    if timeline != [] {
      var r := ShiftToStart(timeline);
      var times := Map(timeline, Pos);
      var m := Min(times);
      assert forall i :: 0 <= i < |r| ==> r[i] == ShiftBy(m)(timeline[i]);
      assert forall i :: 0 <= i < |r| ==> times[i] == timeline[i].pos;
      var k :| 0 <= k < |times| && times[k] == m;
      assert r[k].pos == 0.0;
    }
  }

  // createMidi

  /** The event `createMidi` makes of a key event: on channel 0 at velocity 100, the tick the
      position divided by `playSpeed`, rounded. */
  function MidiEventOf(e: KeyEvent, playSpeed: real): MidiEvent
    requires playSpeed != 0.0
  {
    MidiEvent(e.pressed, 0, e.key + BaseNote, Velocity, Round(e.pos / playSpeed))
  }

  function ToMidi(playSpeed: real): KeyEvent -> MidiEvent
    requires playSpeed != 0.0
  {
    (e: KeyEvent) => MidiEventOf(e, playSpeed)
  }

  /** The track: the events sorted by position, each converted. */
  function Track(timeline: seq<KeyEvent>, playSpeed: real): seq<MidiEvent>
    requires playSpeed != 0.0
  {
    Map(SortBy(timeline, Pos), ToMidi(playSpeed))
  }

  /** The events `createMidi` adds to its track, in order. */
  method CreateMidi(timeline: seq<KeyEvent>, playSpeed: real) returns (track: seq<MidiEvent>)
    requires playSpeed != 0.0
    ensures track == Track(timeline, playSpeed)
  {
    var timelineSorted := SortBy(timeline, Pos);
    track := [];
    for i := 0 to |timelineSorted|
      invariant |track| == i
      invariant forall j :: 0 <= j < i ==> track[j] == MidiEventOf(timelineSorted[j], playSpeed)
    {
      var event := timelineSorted[i];
      track := track + [MidiEvent(event.pressed, 0, event.key + BaseNote, Velocity, Round(event.pos / playSpeed))];
    }
  }

  /** The track holds the converted key events, each as often as it occurs in the timeline
      and reordered by position; at a positive play speed the ticks never decrease. */
  lemma TrackSpec(timeline: seq<KeyEvent>, playSpeed: real)
    requires playSpeed != 0.0
    ensures |Track(timeline, playSpeed)| == |timeline|
    ensures multiset(Track(timeline, playSpeed)) == multiset(Map(timeline, ToMidi(playSpeed)))
    ensures forall i :: 0 <= i < |timeline| ==>
      exists j :: 0 <= j < |timeline| && Track(timeline, playSpeed)[i] == MidiEventOf(timeline[j], playSpeed)
    ensures playSpeed > 0.0 ==> forall i, j :: 0 <= i < j < |timeline| ==>
      Track(timeline, playSpeed)[i].tick <= Track(timeline, playSpeed)[j].tick
  {
    var sorted := SortBy(timeline, Pos);
    var track := Track(timeline, playSpeed);
    SortBySpec(timeline, Pos);
    MapPermutation(sorted, timeline, ToMidi(playSpeed));
    forall i | 0 <= i < |timeline| ensures exists j :: 0 <= j < |timeline| && track[i] == MidiEventOf(timeline[j], playSpeed) {
      assert sorted[i] in multiset(timeline);
      var j :| 0 <= j < |timeline| && timeline[j] == sorted[i];
    }
    if playSpeed > 0.0 {
      forall i, j | 0 <= i < j < |timeline| ensures track[i].tick <= track[j].tick {
        assert sorted[i].pos <= sorted[j].pos;
        DivMonotone(sorted[i].pos, sorted[j].pos, playSpeed);
        RoundMonotone(sorted[i].pos / playSpeed, sorted[j].pos / playSpeed);
      }
    }
  }

  // the play speed

  /** Pixels per MIDI tick: pixels per second (`average offset · fps`) over beats per second,
      over ticks per beat. */
  function PlaySpeed(averageOffset: real, fps: real, bpm: real, midiRes: real): real
    requires bpm != 0.0 && midiRes != 0.0
  {
    var bps := bpm / 60.0;
    var pxPerSec := averageOffset * fps;
    var pxPerBeat := pxPerSec / bps;
    pxPerBeat / midiRes
  }

  /** The play speed is not zero, and a note that scrolled into place after `seconds` of video
      gets the tick `seconds · beats per second · ticks per beat`. */
  lemma PlaySpeedMeaning(averageOffset: real, fps: real, bpm: real, midiRes: real, seconds: real)
    requires bpm != 0.0 && midiRes != 0.0 && averageOffset * fps != 0.0
    ensures PlaySpeed(averageOffset, fps, bpm, midiRes) != 0.0
    ensures seconds * averageOffset * fps / PlaySpeed(averageOffset, fps, bpm, midiRes)
      == seconds * (bpm / 60.0) * midiRes
  {
    var pxPerSec := averageOffset * fps;
    var bps := bpm / 60.0;
    var p := PlaySpeed(averageOffset, fps, bpm, midiRes);
    assert p * bps * midiRes == pxPerSec by {
      assert (pxPerSec / bps) / midiRes * midiRes == pxPerSec / bps;
      assert pxPerSec / bps * bps == pxPerSec;
    }
    DivideByProduct(seconds, pxPerSec, p, bps * midiRes);
    assert seconds * averageOffset * fps == seconds * pxPerSec;
  }

  lemma DivideByProduct(t: real, a: real, p: real, q: real)
    requires p * q == a && a != 0.0
    ensures p != 0.0 && t * a / p == t * q
  {
    assert t * a == (t * q) * p;
  }

  // longImageToMidi

  /** `longImageToMidi` throws for an empty image, when there are no offsets, and, through
      `initKeys`, for a bad key range. */
  datatype ImageError = ImageEmpty | NoOffsets | BadKeyRange(KeyRangeError)

  /** The key borders in image columns: the configured borders, corrected for the lens and
      scaled by the image width over the keyboard width. */
  function PixelBorders(c: Config, imgWidth: nat): (r: seq<Span>)
    requires ValidConfig(c) && RangeAccepted(c)
    ensures |r| == |ConfiguredLayout(c).borders|
  {
    var l := ConfiguredLayout(c);
    ConfiguredKeyboard(c);
    var pixelsPerInch := imgWidth as real / l.width;
    var tuned := TuneKeyBorders(l.borders, c.distOrigin, c.distCoeff).value;
    TuneKeyBordersSpec(l.borders, c.distOrigin, c.distCoeff);
    ScaleToPixels(tuned, pixelsPerInch, imgWidth as real)
  }

  /** The key border steps of `longImageToMidi`: `initKeys`, `tuneKeyBorders` and the
      scaling to image columns. */
  method KeyBordersInPixels(c: Config, imgWidth: nat) returns (r: Result<seq<Span>, KeyRangeError>)
    requires ValidConfig(c)
    ensures r.Err? <==> !RangeAccepted(c)
    ensures r.Err? ==> r.error == CheckBorderKeys(c.keyStartNum, c.keyEndNum, c.keyStart, c.keyEnd).value
    ensures r.Ok? ==> r.value == PixelBorders(c, imgWidth)
  {
    var res, keys := InitKeys(c.keyDimensions, c.keyStart, c.keyStartNum, c.keyEnd, c.keyEndNum, []);
    if res.Err? {
      return Err(res.error);
    }
    assert keys == ConfiguredLayout(c).borders;
    ConfiguredKeyboard(c);
    var keyboardWidth := res.value.width;
    var pixelsPerInch := imgWidth as real / keyboardWidth;
    var tunedKeyBorders := TuneKeyBorders(keys, c.distOrigin, c.distCoeff).value;
    return Ok(ScaleToPixels(tunedKeyBorders, pixelsPerInch, imgWidth as real));
  }

  /** The key events detected in the long image, moved to start at 0. */
  function DetectedTimeline(keyBorders: seq<Span>, imgWidth: nat, imgHeight: nat, findContours: (int, int) -> Contours): seq<KeyEvent>
    requires forall s, e :: ValidContours(findContours(s, e))
  {
    ShiftToStart(DetectedNotes(keyBorders, findContours, imgWidth, imgHeight, |keyBorders|))
  }

  /** What `longImageToMidi` hands to the MIDI file: the track of the detected timeline at the
      play speed of the mean offset, or the error it throws. */
  function ImageMidi(c: Config, imgWidth: nat, imgHeight: nat, offsets: seq<real>, findContours: (int, int) -> Contours,
                     fps: real, bpm: real, midiRes: real): Result<seq<MidiEvent>, ImageError>
    requires ValidConfig(c) && bpm != 0.0 && midiRes != 0.0
    requires offsets != [] ==> RealMean(offsets) * fps != 0.0
    requires forall s, e :: ValidContours(findContours(s, e))
  {
    if imgWidth == 0 || imgHeight == 0 then Err(ImageEmpty)
    else if offsets == [] then Err(NoOffsets)
    else if !RangeAccepted(c) then Err(BadKeyRange(CheckBorderKeys(c.keyStartNum, c.keyEndNum, c.keyStart, c.keyEnd).value))
    else
      PlaySpeedMeaning(RealMean(offsets), fps, bpm, midiRes, 0.0);
      var timeline := DetectedTimeline(PixelBorders(c, imgWidth), imgWidth, imgHeight, findContours);
      Ok(Track(timeline, PlaySpeed(RealMean(offsets), fps, bpm, midiRes)))
  }

  lemma DetectedKeys(keyBorders: seq<Span>, findContours: (int, int) -> Contours, imgWidth: int, imgHeight: int, n: nat)
    requires imgWidth >= 0 && n <= |keyBorders|
    requires forall s, e :: ValidContours(findContours(s, e))
    ensures forall e :: e in DetectedNotes(keyBorders, findContours, imgWidth, imgHeight, n) ==> 0 <= e.key < n
  {
    var blocks := KeyBlocks(keyBorders, findContours, imgWidth, imgHeight)[..n];
    forall i | 0 <= i < |blocks|
      ensures forall e: KeyEvent :: e in blocks[i] ==> e.key == i
    {
      var c := KeySlice(keyBorders[i], findContours, imgWidth);
      KeyNoteEventsKeys(Survivors(Candidates(c, keyBorders[i], |c.parents|)), i, imgHeight);
    }
    ConcatKeys(blocks, 0);
  }

  /** Blocks of events each of one key, the keys counting up from `base`: every event is of
      one of those keys. */
  lemma {:induction false} ConcatKeys(blocks: seq<seq<KeyEvent>>, base: int)
    requires forall i :: 0 <= i < |blocks| ==> forall e :: e in blocks[i] ==> e.key == base + i
    ensures forall e :: e in Concat(blocks) ==> base <= e.key < base + |blocks|
  {
    if blocks != [] {
      ConcatKeys(blocks[1..], base + 1);
      assert forall e :: e in blocks[0] ==> e.key == base;
    }
  }

  /** Every detected event belongs to one of the keys. */
  lemma DetectedTimelineKeys(keyBorders: seq<Span>, imgWidth: nat, imgHeight: nat, findContours: (int, int) -> Contours)
    requires forall s, e :: ValidContours(findContours(s, e))
    ensures forall e :: e in DetectedTimeline(keyBorders, imgWidth, imgHeight, findContours) ==> 0 <= e.key < |keyBorders|
  {
    var notes := DetectedNotes(keyBorders, findContours, imgWidth, imgHeight, |keyBorders|);
    DetectedKeys(keyBorders, findContours, imgWidth, imgHeight, |keyBorders|);
    ShiftToStartSpec(notes);
    var shifted := ShiftToStart(notes);
    forall e | e in shifted ensures 0 <= e.key < |keyBorders| {
      var i :| 0 <= i < |shifted| && shifted[i] == e;
      assert notes[i] in notes;
    }
  }

  /** `longImageToMidi` fails exactly for an empty image, no offsets or a bad key range, in
      that order. Otherwise every event is on channel 0 at velocity 100 for the note of one of
      the configured keys, key 0 being MIDI note 21, and at a positive play speed the ticks
      never decrease. */
  lemma ImageMidiSpec(c: Config, imgWidth: nat, imgHeight: nat, offsets: seq<real>, findContours: (int, int) -> Contours,
                      fps: real, bpm: real, midiRes: real)
    requires ValidConfig(c) && bpm != 0.0 && midiRes != 0.0
    requires offsets != [] ==> RealMean(offsets) * fps != 0.0
    requires forall s, e :: ValidContours(findContours(s, e))
    ensures var r := ImageMidi(c, imgWidth, imgHeight, offsets, findContours, fps, bpm, midiRes);
      (r == Err(ImageEmpty) <==> imgWidth == 0 || imgHeight == 0)
      && (r == Err(NoOffsets) <==> imgWidth > 0 && imgHeight > 0 && offsets == [])
      && (r.Ok? <==> imgWidth > 0 && imgHeight > 0 && offsets != [] && RangeAccepted(c))
      && (r.Ok? ==> forall i :: 0 <= i < |r.value| ==>
            r.value[i].channel == 0 && r.value[i].velocity == Velocity
            && BaseNote <= r.value[i].note < BaseNote + |ConfiguredLayout(c).borders|)
      && (r.Ok? && PlaySpeed(RealMean(offsets), fps, bpm, midiRes) > 0.0 ==>
            forall i, j :: 0 <= i < j < |r.value| ==> r.value[i].tick <= r.value[j].tick)
  {
    if imgWidth > 0 && imgHeight > 0 && offsets != [] && RangeAccepted(c) {
      var keyBorders := PixelBorders(c, imgWidth);
      var timeline := DetectedTimeline(keyBorders, imgWidth, imgHeight, findContours);
      PlaySpeedMeaning(RealMean(offsets), fps, bpm, midiRes, 0.0);
      var p := PlaySpeed(RealMean(offsets), fps, bpm, midiRes);
      TrackSpec(timeline, p);
      DetectedTimelineKeys(keyBorders, imgWidth, imgHeight, findContours);
      TrackNotes(timeline, p, |keyBorders|);
    }
  }

  /** The events of keys below `keys` become events on channel 0 at velocity 100 for notes of
      the keyboard. */
  lemma TrackNotes(timeline: seq<KeyEvent>, playSpeed: real, keys: int)
    requires playSpeed != 0.0
    requires forall e :: e in timeline ==> 0 <= e.key < keys
    ensures forall i :: 0 <= i < |Track(timeline, playSpeed)| ==>
      Track(timeline, playSpeed)[i].channel == 0 && Track(timeline, playSpeed)[i].velocity == Velocity
      && BaseNote <= Track(timeline, playSpeed)[i].note < BaseNote + keys
  {
    TrackSpec(timeline, playSpeed);
    var track := Track(timeline, playSpeed);
    forall i | 0 <= i < |track|
      ensures track[i].channel == 0 && track[i].velocity == Velocity && BaseNote <= track[i].note < BaseNote + keys
    {
      var j :| 0 <= j < |timeline| && track[i] == MidiEventOf(timeline[j], playSpeed);
      assert timeline[j] in timeline;
    }
  }

  // the class

  /** A `VidToMid` and its mutable settings; the video it reads is not part of this model. */
  class VidToMid {
    var framesToSkip: int
    var inputFps: real
    var bpm: real
    var midiRes: real
    var keyStart: char
    var keyStartNum: int
    var keyEnd: char
    var keyEndNum: int
    var keyDimensions: seq<KeyShape>
    var maxImageDiff: real
    var keyboardDistCoeff: real
    var keyboardDistOrigin: real

    /** The settings `longImageToMidi` reads. */
    function Settings(): Config
      reads this
    {
      Config(keyStart, keyStartNum, keyEnd, keyEndNum, keyDimensions, maxImageDiff, keyboardDistCoeff, keyboardDistOrigin)
    }

    /** The key table and the lens correction stay usable. */
    ghost predicate Valid()
      reads this
    {
      ValidConfig(Settings())
    }

    constructor()
      ensures Valid() && Settings() == DefaultConfig()
      ensures framesToSkip == 0 && inputFps == 0.0 && bpm == 0.0 && midiRes == 0.0
    {
      framesToSkip := 0;
      inputFps := 0.0;
      bpm := 0.0;
      midiRes := 0.0;
      keyStart := 'a';
      keyStartNum := -3;
      keyEnd := 'c';
      keyEndNum := 5;
      keyDimensions := SimpleKeyDimensions();
      maxImageDiff := 0.50;
      keyboardDistCoeff := 0.043;
      keyboardDistOrigin := 0.47;
      new;
      DefaultConfigSpec();
    }

    /** `fps()`: the frame rate of the frames actually looked at, one in `framesToSkip + 1`. */
    function Fps(): real
      reads this
      requires framesToSkip + 1 != 0
    {
      inputFps / (framesToSkip + 1) as real
    }

    /** `getOffsets`: records the frame rate and the frames to skip, then corrects the offsets
        measured between consecutive frames (`getVideoOffsets`). */
    method GetOffsets(fps: real, framesToSkip: int, measured: seq<real>) returns (r: Result<seq<real>, MedianError>)
      modifies this
      ensures this.inputFps == fps && this.framesToSkip == framesToSkip
      ensures bpm == old(bpm) && midiRes == old(midiRes) && Settings() == old(Settings())
      ensures r == CorrectOffsets(measured, maxImageDiff)
    {
      this.inputFps := fps;
      this.framesToSkip := framesToSkip;
      r := CorrectOffsets(measured, maxImageDiff);
    }

    /** `mergeImages`: records the frames to skip, then stitches the long image
        (`recMergeImages`) from the frames read with that spacing. */
    method MergeImages<Row>(framesToSkip: int, startFrame: seq<Row>, frames: seq<seq<Row>>, offsets: seq<real>)
      returns (r: Result<seq<Row>, StitchError>)
      requires |frames| == |offsets|
      modifies this
      ensures this.framesToSkip == framesToSkip
      ensures inputFps == old(inputFps) && bpm == old(bpm) && midiRes == old(midiRes) && Settings() == old(Settings())
      ensures r.Err? <==> !CutsFit(frames, offsets)
      ensures r.Ok? ==> r.value == Stitched(startFrame, frames, offsets)
    {
      this.framesToSkip := framesToSkip;
      r := MergeFrames(startFrame, frames, offsets);
    }

    /** `imageToMidi`: records all four settings, then runs `longImageToMidi`. */
    method ImageToMidi(fps: real, framesToSkip: int, bpm: real, midiRes: real,
                       imgWidth: nat, imgHeight: nat, offsets: seq<real>, findContours: (int, int) -> Contours)
      returns (r: Result<seq<MidiEvent>, ImageError>)
      requires Valid()
      requires framesToSkip + 1 != 0 && bpm != 0.0 && midiRes != 0.0
      requires offsets != [] ==> RealMean(offsets) * (fps / (framesToSkip + 1) as real) != 0.0
      requires forall s, e :: ValidContours(findContours(s, e))
      modifies this
      ensures this.inputFps == fps && this.framesToSkip == framesToSkip && this.bpm == bpm && this.midiRes == midiRes
      ensures Settings() == old(Settings())
      ensures r == ImageMidi(Settings(), imgWidth, imgHeight, offsets, findContours, Fps(), bpm, midiRes)
    {
      this.inputFps := fps;
      this.framesToSkip := framesToSkip;
      this.bpm := bpm;
      this.midiRes := midiRes;
      r := LongImageToMidi(imgWidth, imgHeight, offsets, findContours);
    }

    /** `longImageToMidi` on the long image's size, the corrected offsets and the contours
        OpenCV finds in each column range of the image. */
    method LongImageToMidi(imgWidth: nat, imgHeight: nat, offsets: seq<real>, findContours: (int, int) -> Contours)
      returns (r: Result<seq<MidiEvent>, ImageError>)
      requires Valid()
      requires framesToSkip + 1 != 0 && bpm != 0.0 && midiRes != 0.0
      requires offsets != [] ==> RealMean(offsets) * Fps() != 0.0
      requires forall s, e :: ValidContours(findContours(s, e))
      ensures r == ImageMidi(Settings(), imgWidth, imgHeight, offsets, findContours, Fps(), bpm, midiRes)
    {
      if imgWidth == 0 || imgHeight == 0 {
        return Err(ImageEmpty);
      }
      if offsets == [] {
        return Err(NoOffsets);
      }
      var c := Settings();
      var borders := KeyBordersInPixels(c, imgWidth);
      if borders.Err? {
        return Err(BadKeyRange(borders.error));
      }
      var keyBorders := borders.value;
      var notes := DetectNotesInImage(imgWidth, imgHeight, keyBorders, findContours);
      var shiftedTimeline := ShiftToStart(notes);
      assert shiftedTimeline == DetectedTimeline(keyBorders, imgWidth, imgHeight, findContours);
      var fps, mean := Fps(), RealMean(offsets);
      // beats per second, pixels per second, pixels per beat, then pixels per tick
      var playSpeed := PlaySpeed(mean, fps, bpm, midiRes);
      PlaySpeedMeaning(mean, fps, bpm, midiRes, 0.0);
      var track := CreateMidi(shiftedTimeline, playSpeed);
      return Ok(track);
    }
  }
}

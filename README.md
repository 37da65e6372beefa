# YoutubeTutToSheet core, modelled in Dafny

YoutubeTutToSheet turns a piano-tutorial video into a MIDI file. Notes fall down a "piano roll" towards a drawn
keyboard. The program first lays out that keyboard as one horizontal border per key. It then finds the note bars
above each key, from single frames or from one long image stitched out of many frames. It estimates how fast the
roll scrolls, puts every note on one time axis, and emits MIDI note-on and note-off events. Two side modules fill
gaps in tracked hand positions and pick the hand that most likely played a note.

The model covers the computational heart of the four core Kotlin files:

- `Main.kt`, the older pipeline:
  - the key range check and keyboard walk;
  - the per-key timeline with its merge of overlapping sightings;
  - the interval cross-correlation and the speed estimate built on it;
  - the reshaping of notes into per-key lists and into one event list;
  - the shift of the timeline to zero and the MIDI event computation.
- `VidToMid.kt`, the newer pipeline:
  - the two key tables, the keyboard distortion, and the scaling of borders to pixels;
  - the median of frame offsets and the outlier correction;
  - the stitching order of frame slivers;
  - note selection from the contour hierarchy, removal of enclosed rectangles, and on/off event emission;
  - the shift to the start, the MIDI events, and the play speed;
  - the `VidToMid` object and the fields its entry points set.
- `HandPositions.kt`: filling the gaps in a hand's track, by interpolation between two sightings or by copying
  the first sighting backwards.
- `Utils.kt`: the binary search for the first value at least a bound, and the choice of the likeliest hand.

Conventions:

- `Double` and `Float` are `real`. Where the source truncates (`toInt`) or rounds (`roundToInt`), `Numbers.Truncate`
  and `Numbers.Round` do that explicitly.
- Kotlin's `sortBy`, `sortedBy` and `sorted` are `Sorting.SortBy`, a stable insertion sort. Lemmas show it is
  sorted, a permutation and stable.
- A Kotlin exception is an `Err` of a `Result`. A nullable reference is an `Option`.
- OpenCV results (contours, their parent hierarchy, bounding rectangles, per-frame offsets, image sizes) are inputs:
  plain sequences or a function parameter.
- Loops that mutate state are methods with loop invariants. Each method is proved equal to a specification
  function, and the lemmas state what that function means.

### Where the code and its description differ

The merge of overlapping sightings in `getKeyTimeline` is described as extending the running note. The code at
`src/main/kotlin/Main.kt:527` only ever replaces the running end by a smaller one. The model follows the code.
`KeyTimeline.MergeKeepsEarliestEnd` shows the effect: the merge of `(0,24),(12,36),(56,78),(68,80)` is
`(0,24),(56,78)`.

The letter check lower-cases the key letter, but the key-code lookup uses the letter as given (`keyCodes[keyLow] ?: 0`).
An upper-case letter therefore passes the check and maps to code 0. `Keyboard.KeyCode` models that lookup as written.

## Model

| member | source | states |
|---|---|---|
| Keyboard.CheckBorderKeys | src/main/kotlin/Main.kt:140-151 | the range is accepted exactly when both octaves lie in [-3, 5], the low octave is below the high one and both lower-cased letters are note letters (the same check is repeated at VidToMid.kt:396-407) |
| Keyboard.KeyCode | src/main/kotlin/Main.kt:75 | every letter maps to the index of a white key, one of 0, 2, 4, 5, 7, 9, 11 |
| Keyboard.KeyIndices | src/main/kotlin/Main.kt:99-135 | the walk visits (12 - low code) + 12 · (octaves strictly between) + (high code + 1) keys |
| Keyboard.AddKey | src/main/kotlin/Main.kt:100-108 | one key appends its border at the current offset; a white key advances the offset and the width by its width and counts once; a black key advances nothing |
| Keyboard.AddKeyRun | src/main/kotlin/Main.kt:99-109 | the first partial octave extends the layout exactly as the abstract walk over those key indices does |
| Keyboard.AddOctaves | src/main/kotlin/Main.kt:111-123 | the whole octaves extend the layout exactly as the walk over 12 keys per octave does |
| Keyboard.WalkKeys | src/main/kotlin/Main.kt:95-135 | the three loops together produce the walk of the full key-index sequence |
| Keyboard.InitKeys | src/main/kotlin/Main.kt:68-138 | fails exactly when the range check fails, with the same error and nothing appended; otherwise appends one border per key of the walk and returns its white-key count and width |
| Keyboard.WalkFromTotals | src/main/kotlin/Main.kt:95-137 | the white-key count is the number of white indices visited, and the width is the sum of their widths |
| Keyboard.WalkFromBorderAt | src/main/kotlin/Main.kt:101-107 | the i-th new border is that key's border placed at the start width plus the advances of all earlier keys |
| Keyboard.TablesAreStandard | src/main/kotlin/VidToMid.kt:60-92 | both key tables follow the white/black pattern of an octave starting at A and have positive white widths |
| Keyboard.WhiteKeyCount | src/main/kotlin/Main.kt:76-137 | the white keys of a range are those of the low partial octave, seven per whole octave in between, and those of the high partial octave |
| Keyboard.PianoKeyboard | src/main/kotlin/Main.kt:76-137 | the range A of octave -3 to C of octave 5 yields 88 borders, 52 of them white |
| Keyboard.KeyboardEdges | src/main/kotlin/Main.kt:99-137 | the first border starts at 0 and the last border's right edge equals the returned width |
| Calibration.DistortIdentity | src/main/kotlin/VidToMid.kt:386-394 | with coefficient 0 the new length is 1 and the distortion is the identity |
| Calibration.DistortEnds | src/main/kotlin/VidToMid.kt:386-394 | for any coefficient with a nonzero new length, 0 maps to 0 and the width maps to the width |
| Calibration.TuneKeyBordersSpec | src/main/kotlin/VidToMid.kt:377-384 | an empty list fails, as `maxOf` throws; otherwise the count is kept, left edges at 0 stay at 0, right edges at the widest right edge stay there and one does, and coefficient 0 changes nothing |
| Calibration.ScaleToPixelsSpec | src/main/kotlin/VidToMid.kt:173-183 | borders are multiplied by image width over keyboard width, right edges are capped at the image width, and the keyboard's right end lands on the image's right edge |
| Calibration.KeyboardWidthPositive | src/main/kotlin/VidToMid.kt:173-177 | any accepted range gives a positive keyboard width, so the pixel scale is defined |
| Numbers.Truncate | src/main/kotlin/Main.kt:348 | the result is the integer part of the value, rounded toward zero |
| Numbers.Round | src/main/kotlin/VidToMid.kt:438 | the result is the nearest integer, with halves going up |
| Numbers.TruncateMonotone | src/main/kotlin/Main.kt:348 | truncation preserves order |
| Numbers.RoundMonotone | src/main/kotlin/VidToMid.kt:438 | rounding preserves order |
| Sorting.SortBySpec | src/main/kotlin/Main.kt:519 | `sortBy` gives a list sorted by the key that is a permutation of the input |
| Sorting.SortByStable | src/main/kotlin/Main.kt:519 | elements with equal keys keep their relative order |
| Sorting.FilterSortBy | src/main/kotlin/Main.kt:519 | sorting commutes with filtering |
| KeyTimeline.PlaceSightings | src/main/kotlin/Main.kt:502-514 | the placing loop yields every sighting of every frame, each frame one `speed` later, flipped against the height |
| KeyTimeline.CombineOverlapping | src/main/kotlin/Main.kt:521-538 | the combining loop computes the merge of the sorted timeline |
| KeyTimeline.GetKeyTimeline | src/main/kotlin/Main.kt:494-541 | the key timeline is the merge of the start-sorted placed sightings; no sightings give an empty timeline |
| KeyTimeline.MergeProperties | src/main/kotlin/Main.kt:519-538 | on sorted well-formed input the output is well-formed and strictly gapped, no longer than the input, covers every input start, ends no later than any input whose start it covers, starts at some input start and ends at the end of some input whose start it covers (so each output note runs from the least covered start to the least covered end), and is empty only for empty input |
| KeyTimeline.MergeGapped | src/main/kotlin/Main.kt:519-538 | an already gapped, well-formed timeline is left as it is |
| KeyTimeline.MergeIdempotent | src/main/kotlin/Main.kt:519-538 | merging a merged timeline changes nothing |
| KeyTimeline.FrameSpansWellFormed | src/main/kotlin/Main.kt:502-514 | placing keeps each note well-formed and keeps its length |
| KeyTimeline.KeyTimelineProperties | src/main/kotlin/Main.kt:494-541 | the key timeline has every merge property with respect to the sorted placed sightings: well-formed, sorted with gaps, no longer than the sightings, every sighting start covered, each note starting at a sighting start and ending at the end of a covered sighting, and no note ending past the end of a sighting it covers |
| KeyTimeline.GetKeyTimelineExample | src/test/kotlin/MainTest.kt:97-111 | two frames of two notes each, speed 12 and height 100, give (22,44),(76,100) |
| KeyTimeline.MergeKeepsEarliestEnd | src/main/kotlin/Main.kt:527 | an absorbed note cuts the running end back, so (0,24),(12,36),(56,78),(68,80) merge to (0,24),(56,78) |
| CrossCorrelation.CalculateCrossCorrelation | src/main/kotlin/Main.kt:663-698 | the sweep over sorted open/close points computes the overlap of the shifted first frame with the second, divided by their mean total length |
| CrossCorrelation.EqualDistanceBounds | src/main/kotlin/Main.kt:671-696 | the swept overlap lies between 0 and the total length of each frame |
| CrossCorrelation.CorrelationBounds | src/main/kotlin/Main.kt:663-698 | for well-formed frames the correlation lies in [0, 1] |
| CrossCorrelation.CorrelationAtExactShift | src/main/kotlin/Main.kt:663-698 | a frame of disjoint notes with positive length, compared with itself shifted by the offset, correlates exactly 1 |
| Speed.GetCrossOffset | src/main/kotlin/Main.kt:642-661 | the loop returns the mean of all offsets in [1, imgHeight) that attain the best correlation |
| Speed.TiesSpec | src/main/kotlin/Main.kt:648-657 | the kept offsets are exactly those whose score equals the bound |
| Speed.MeanTiesBounds | src/main/kotlin/Main.kt:660 | the best offsets are never empty, and their mean lies between 1 and the number of scores |
| Speed.CrossOffsetBounds | src/main/kotlin/Main.kt:642-661 | the estimated offset lies in [1, imgHeight - 1] |
| Speed.CrossOffsetFindsShift | src/main/kotlin/Main.kt:642-661 | when the second frame is the first shifted by an offset in range, that offset is among the best ones |
| CrossCorrelation.CorrelationOffShift | src/main/kotlin/Main.kt:663-698 | a frame of disjoint notes with positive length, compared with itself shifted by `s`, correlates strictly below 1 at every offset other than `s` |
| Speed.ScoresOfShift | src/main/kotlin/Main.kt:642-657 | against the first frame shifted by an offset in range, the score at that offset is 1 and every other score is below 1 |
| Speed.SingleBest | src/main/kotlin/Main.kt:648-660 | a score reached at exactly one offset, with every other score below it, is the maximum, the only tie, and the mean of the ties |
| Speed.CrossOffsetIsShift | src/main/kotlin/Main.kt:642-661 | when the second frame is the first, of disjoint notes with positive length, shifted by an offset in [1, imgHeight), the cross offset is exactly that offset |
| Speed.CrossOffsetExample | src/main/kotlin/Main.kt:642-661 | the notes (0,12) and (30,35) seen again as (13,25) and (43,48) give a cross offset of exactly 13 whenever imgHeight exceeds 13 |
| Speed.EstimateKeySpeed | src/main/kotlin/Main.kt:563-583 | returns the sum of the cross offsets of consecutive non-empty frame pairs and the number of such pairs; so 0 and 0 for fewer than two frames |
| Speed.PairOffsetsBounds | src/main/kotlin/Main.kt:563-583 | every pair offset lies in [1, imgHeight - 1] |
| Speed.EstimateSpeed | src/main/kotlin/Main.kt:547-561 | computes the mean of all pair offsets of all keys, or -1 when there are none |
| Speed.EstimatedSpeedSpec | src/main/kotlin/Main.kt:547-561 | the speed is -1 exactly when no pair offset exists; otherwise it lies in [1, imgHeight - 1] |
| Pipeline.ConvertIntoKeyFocused | src/main/kotlin/Main.kt:616-640 | the nested loops compute the key-focused reshape, failing on an out-of-range key |
| Pipeline.KeyFocusedSpec | src/main/kotlin/Main.kt:616-640 | fails exactly when some frame names a key outside [0, keyCount); otherwise the result is keyCount × frames, and entry [k][f] is that frame's notes of key k stably sorted by end, or empty when the key is absent |
| Pipeline.ReshapeExample | src/test/kotlin/MainTest.kt:7-58 | the three-frame, five-key example reshapes to the expected key-major lists |
| Pipeline.GetTimeline | src/main/kotlin/Main.kt:600-614 | appends one key timeline per key to the given list and keeps what it held |
| Pipeline.ConvertNotesToTimestamps | src/main/kotlin/Main.kt:585-598 | the speed is estimated once and every key's notes become its key timeline |
| Pipeline.TimestampsSpec | src/main/kotlin/Main.kt:585-598 | without any pair offset (speed -1) the result is empty; otherwise the speed lies in [1, height - 1] and key k's result is its key timeline at that speed |
| Pipeline.ConvertInSingleTimeline | src/main/kotlin/Main.kt:295-319 | the loop emits, key by key, an on event at each note's start and an off event at its end |
| Pipeline.FilterSingleTimeline | src/main/kotlin/Main.kt:295-319 | the events of key k in the single timeline are exactly key k's own events, in order |
| Pipeline.SingleTimelineRoundTrip | src/main/kotlin/Main.kt:295-319 | regrouping key k's events gives back key k's timeline |
| Pipeline.ShiftTimelineToStart | src/main/kotlin/Main.kt:220-233 | every time drops by the minimum time, keys and kinds stay, all times are non-negative and one is 0 |
| Pipeline.ShiftKeepsDistances | src/main/kotlin/Main.kt:220-233 | the shift keeps the distance between any two events |
| Pipeline.CreateAndPlayMidi | src/main/kotlin/Main.kt:321-386 | the track is the time-sorted events, each on channel 1 at velocity 100, note key + 21, tick the time over the play speed truncated |
| Pipeline.MainTrackSpec | src/main/kotlin/Main.kt:332-362 | the track is a permutation of the converted timed events: each input event appears exactly as often as it occurs, converted; with a positive speed the ticks never decrease |
| Offsets.MedianSpec | src/main/kotlin/VidToMid.kt:253-258 | the median of a non-empty list lies between its minimum and maximum, with at least half the values at most it and at least half at least it |
| Offsets.CorrectOffsetsSpec | src/main/kotlin/VidToMid.kt:236-239 | fails exactly on an empty list; otherwise keeps the length, keeps a value whose distance from the median is at most median · maxDiff, replaces any other by the median, so every result lies within that distance |
| Offsets.CorrectOffsetsExample | src/main/kotlin/VidToMid.kt:236-239 | 5, 5, 5, 50, 5 with tolerance 0.25 becomes five 5s |
| Offsets.MergeFrames | src/main/kotlin/VidToMid.kt:260-294 | fails exactly when a sliver of round(offset + 1) rows does not fit its frame; otherwise returns the reversed list of the full first frame and the slivers |
| Offsets.StitchedSpec | src/main/kotlin/VidToMid.kt:279-288 | the image is the first frame's height plus the sum of the sliver heights, the first frame ends up at the bottom, and the last sliver at the top |
| NoteDetection.SliceColumnsSpec | src/main/kotlin/VidToMid.kt:462-467 | the slice spans round(left - 3) to round(right + 3), each clamped to [0, imgWidth], and never runs backwards |
| NoteDetection.ContourDepth | src/main/kotlin/VidToMid.kt:478-488 | the parent walk of an acyclic hierarchy stops, and returns the number of steps to a top-level contour |
| NoteDetection.ChainLengthSpec | src/main/kotlin/VidToMid.kt:478-488 | the chain length is the least number of parent steps that reaches the top |
| NoteDetection.DepthOne | src/main/kotlin/VidToMid.kt:489-491 | depth 1 means exactly that the contour has a parent and that parent is top-level |
| NoteDetection.SelectCandidates | src/main/kotlin/VidToMid.kt:489-501 | the loop keeps, in order, the bounding boxes of contours at depth 1 that are wide enough, moved into image coordinates |
| NoteDetection.CandidatesSpec | src/main/kotlin/VidToMid.kt:489-501 | a rectangle is a candidate exactly when it is the moved box of some kept contour |
| NoteDetection.EnclosesStrict | src/main/kotlin/VidToMid.kt:503-512 | under half-open `contains` no rectangle encloses itself, and enclosure is one-way and strictly narrower |
| NoteDetection.CollectInner | src/main/kotlin/VidToMid.kt:503-510 | collects exactly the candidates enclosed by some candidate |
| NoteDetection.RemoveInner | src/main/kotlin/VidToMid.kt:503-512 | the survivors are the candidates that no candidate encloses |
| NoteDetection.SurvivorsSpec | src/main/kotlin/VidToMid.kt:503-512 | a rectangle survives exactly when it is a candidate that nothing encloses, and no survivor encloses another |
| NoteDetection.EmitEvents | src/main/kotlin/VidToMid.kt:519-524 | the loop appends the events of every survivor to the list |
| NoteDetection.KeyNoteEventsSpec | src/main/kotlin/VidToMid.kt:519-524 | each survivor gives an on event at H - (y + h + 1) and then an off event at H - (y - 1), height + 2 apart |
| NoteDetection.PressedBeforeReleased | src/main/kotlin/VidToMid.kt:519-524 | each note's on event comes before its off event in position |
| NoteDetection.DetectNotesInImage | src/main/kotlin/VidToMid.kt:455-530 | the loop over keys appends, key after key, the events of that key's slice |
| NoteDetection.DetectedNotesOfKey | src/main/kotlin/VidToMid.kt:455-530 | the events tagged with key k are exactly those found in key k's slice |
| VideoToMidi.DetectedKeys | src/main/kotlin/VidToMid.kt:455-530 | every event found over the first n keys is tagged with one of those keys |
| VideoToMidi.DefaultConfigSpec | src/main/kotlin/VidToMid.kt:109-136 | the selected settings are valid, accept their key range and give an 88-key keyboard |
| VideoToMidi.ConfiguredKeyboard | src/main/kotlin/VidToMid.kt:326-375 | a valid accepted configuration gives a non-empty keyboard of positive width and a positive widest right edge |
| VideoToMidi.KeyBordersInPixels | src/main/kotlin/VidToMid.kt:173-183 | fails exactly when the range check fails, with its error; otherwise gives the tuned borders scaled to pixels |
| VideoToMidi.ShiftToStartSpec | src/main/kotlin/VidToMid.kt:409-415 | length, key, kind and hand stay; every position drops by the minimum, is non-negative and one is 0; and the order of positions is unchanged |
| VideoToMidi.CreateMidi | src/main/kotlin/VidToMid.kt:417-453 | the track is the position-sorted events, each with note key + 21 and tick the rounded position over the play speed |
| VideoToMidi.TrackSpec | src/main/kotlin/VidToMid.kt:425-441 | the track is a permutation of the converted key events: each input event appears exactly as often as it occurs, converted; with a positive speed the ticks never decrease |
| VideoToMidi.PlaySpeedMeaning | src/main/kotlin/VidToMid.kt:190-194 | the play speed turns the pixels scrolled in a number of seconds into as many ticks as that many seconds hold at the tempo and resolution |
| VideoToMidi.DetectedTimelineKeys | src/main/kotlin/VidToMid.kt:184 | every detected event belongs to a key of the keyboard |
| VideoToMidi.ImageMidiSpec | src/main/kotlin/VidToMid.kt:161-195 | an empty image is an error; empty offsets are an error; otherwise it succeeds exactly when the key range is accepted, with every event on channel 0 at velocity 100 on a note of the keyboard and ticks in order under a positive speed |
| VideoToMidi.VidToMid.constructor | src/main/kotlin/VidToMid.kt:49-58 | the object starts with the selected settings and zero frame skip, frame rate, tempo and resolution |
| VideoToMidi.VidToMid.GetOffsets | src/main/kotlin/VidToMid.kt:138-142 | records the frame rate and skip, leaves the rest, and returns the corrected offsets |
| VideoToMidi.VidToMid.MergeImages | src/main/kotlin/VidToMid.kt:144-147 | records the skip and stitches the frames as `MergeFrames` does |
| VideoToMidi.VidToMid.ImageToMidi | src/main/kotlin/VidToMid.kt:149-155 | records the four parameters and converts the image with the per-step frame rate `fps()` |
| VideoToMidi.VidToMid.LongImageToMidi | src/main/kotlin/VidToMid.kt:161-195 | converts the stitched image with the object's current settings and fields |
| Hands.CreateLeadingHands | src/main/kotlin/HandPositions.kt:103-118 | appends one estimated copy of the hand's landmarks, in its slot, for each of frames 0 .. missed - 1 |
| Hands.CreateInterpolatedHands | src/main/kotlin/HandPositions.kt:120-148 | appends the interpolated additions for the gap before the end hand's frame |
| Hands.InterpolatedHandsSpec | src/main/kotlin/HandPositions.kt:120-148 | exactly m additions, at frames f - m .. f - 1, in the slot, with `right` from the end hand, estimated, with as many landmarks as the shorter hand, each between the start and end landmarks |
| Hands.LerpEnds | src/main/kotlin/HandPositions.kt:137-143 | the interpolation step before the gap gives the start value and the step m gives the end value |
| Hands.LerpBetween | src/main/kotlin/HandPositions.kt:137-143 | every step inside the gap lies between the start and the end, strictly when they differ |
| Hands.Zip | src/main/kotlin/HandPositions.kt:129 | the pairs are as many as the shorter list and pair equal positions |
| Hands.VisitHand | src/main/kotlin/HandPositions.kt:77-92 | one hand updates the slot arrays and the additions exactly as the abstract scan step does |
| Hands.CountMissingFrames | src/main/kotlin/HandPositions.kt:93-99 | increments the counter of every slot not seen in the frame and leaves the others |
| Hands.FindMissingHands | src/main/kotlin/HandPositions.kt:59-101 | the loops compute the additions of the abstract scan over all frames |
| Hands.MissingHandsPlaced | src/main/kotlin/HandPositions.kt:59-101 | every addition lies in an existing frame, is estimated, has a slot in [0, hands), and has its slot seen in a later frame, so trailing gaps are never filled |
| Hands.TrailingEmptyFrame | src/main/kotlin/HandPositions.kt:93-100 | an empty frame at the end adds nothing |
| Hands.CountersMeaning | src/main/kotlin/HandPositions.kt:79-99 | after the scan a slot's counter is the number of frames since it was last seen and its last hand is that sighting; no hand means the slot was never seen and the counter is the frame count |
| Hands.GapAtSighting | src/main/kotlin/HandPositions.kt:79-92 | a hand whose slot was already seen in this frame, or had no gap, adds nothing; otherwise it adds the gap from its last sighting (leading copies when there is none, with the gap then the frame index) |
| Hands.DistributeSpec | src/main/kotlin/HandPositions.kt:53-56 | frame f gets, appended, exactly the additions for frame f, in order |
| Hands.FillHoles | src/main/kotlin/HandPositions.kt:51-57 | every addition names an existing frame; the frame count and every existing hand stay; each frame gains its additions at the end; pixel offsets are unchanged |
| Hands.HandPositions.constructor | src/main/kotlin/HandPositions.kt:12-14 | a track holds its frames and pixel offsets |
| Utils.FirstAtLeastSpec | src/main/kotlin/Utils.kt:5-34 | the linear reference returns -1 exactly when every value is below the bound, and otherwise the first index at least the bound |
| Utils.BinaryGreaterThanSearch | src/main/kotlin/Utils.kt:5-34 | on a non-empty range returns -1 or an index in range; a returned index holds a value at least the bound; on an empty or reversed range the value at `fromIndex` decides between `fromIndex` and -1; on a sorted non-empty range -1 means all values are below; earlier values are at most the bound, and below it unless the search stopped on an equal value; with no equal value it is the first index at least the bound |
| Utils.FirstMinUnique | src/main/kotlin/Utils.kt:45-57 | at most one finger tip is the first of least distance, so ties go to the first |
| Utils.LikeliestHand | src/main/kotlin/Utils.kt:36-58 | fails on an empty list or a position outside [0, 1), and succeeds exactly when neither holds; then it returns a hand of the list: the owner of the first finger tip closest to the position, or the first hand when there are no tips |

## Left out

- OpenCV is not modelled. This covers `matchTemplate`, `findContours`, thresholds, `submat`, `vconcat`, `cvtColor` and
  `rectangle`. Their results enter as sequences, as a contour hierarchy, or as the parameter `findContours` of
  a column range.
- The filled rectangle drawn into the image at `src/main/kotlin/VidToMid.kt:526` is left out. It changes the pixels
  that later key slices see. That is image state, so the model gives every slice its own contours.
- Video, file and JSON I/O are left out. This covers `VideoCapture`, frame skipping, offset and checkpoint files, `loadImage`
  and `saveImage`.
- `loadHandPositions` is left out: it only reads a JSON file.
- `getFrame` and the `size` accessors of `HandPositions.kt` are left out as plain accessors.
- `System.gc`, `println` and timing are left out as output only.
- The MIDI library and process control are left out: sequencer, tempo, resolution, file write, `exitProcess`. The model stops at the
  list of computed events.
- Main.kt's `detectNotesInImage`, `findTopBottomAndWidth` and the Main.kt entry points (`start`, `appendImages`,
  `detectNotesInVideo`, `createMidiFromMarkers`) are left out. They are the OpenCV-driven
  predecessor of `detectNotesInImagePP` and its plumbing.
- `getHand`, `computeAddedThresh`, `adaptThresh`, the `prepareImage` and `extractNotes` lambdas and `FRAME_LIMITS` are
  left out: they are image processing. So are the settings files that wrap them (`loadSettingsFile`).
- Kotlin lists are modelled as values. Aliasing of the mutable lists passed between functions is not captured.
  `HandPositions.frames` is a `seq` field that `FillHoles` reassigns.
- The map iteration order of `convertIntoKeyFocused` is not used: the result is indexed by key, so it does not depend
  on that order.
- `VideoToMidi.VidToMid.MergeImages` takes the captured frames as an input instead of reading them from the video.
- `Hands.FillHoles` takes the slot count `hands` as a parameter; the source's default is 2.
- The literal inputs of the cross-correlation and cross-offset tests (`src/test/kotlin/MainTest.kt:113-181`) are not
  encoded. They use (bottom, top) pairs, for which the code's normaliser is negative, and they expect values the code
  does not compute.
- NaN and infinity are not modelled. Each place the source could produce them is excluded by a precondition named below.
- CrossCorrelation.CalculateCrossCorrelation: requires a nonzero total length of the two frames. In Kotlin
  0/0 gives NaN.
- Speed.GetCrossOffset, Speed.EstimateKeySpeed and Speed.EstimateSpeed:
  - require `imgHeight >= 2`, because otherwise no offset is tried and the mean of no offsets is NaN;
  - require that every note has positive length, so that every non-empty frame pair has a nonzero normaliser.
- Pipeline.ConvertNotesToTimestamps: requires the same of its notes, and an image height of at least 2 after truncation.
- Pipeline.CreateAndPlayMidi and VideoToMidi.CreateMidi: require a nonzero play speed. A zero speed gives infinite
  ticks in Kotlin.
- Calibration.TuneKeyBordersSpec: requires a nonzero widest right edge and a nonzero distortion length, because it
  divides by both.
- Numbers.Truncate and Numbers.Round: do not model the saturation of `toInt` and `roundToInt` at the bounds of a 32-bit `Int`.
  Ticks and pixel positions are assumed to stay within range.
- VideoToMidi.VidToMid.ImageToMidi and VideoToMidi.VidToMid.LongImageToMidi:
  - require `framesToSkip + 1 != 0`;
  - require nonzero tempo and resolution;
  - require a nonzero product of the mean offset and the frame rate, because the play speed divides by each.
- NoteDetection.ContourDepth: requires an acyclic parent array with every parent in range, as OpenCV supplies it.
- Hands.FindMissingHands and Hands.FillHoles: require at least one slot and non-negative hand indices. Kotlin's
  `%` truncates toward zero, so a negative index would give a negative slot and an out-of-bounds array access.
- Utils.BinaryGreaterThanSearch: the source checks no bounds. The model covers every call that reads only in-range
  elements, including the empty and reversed ranges where the loop is skipped, and requires `0 <= fromIndex < size`
  and `toIndex <= size`. It leaves out a `fromIndex` outside the list, where the final read throws, and a `toIndex`
  past the end, where the loop may read past the list. It models `ushr 1` of the non-negative index sum as division by 2.
- Utils.LikeliestHand takes `getFingerTips`, whose code is not part of this model, as a function parameter. The starting
  distance of positive infinity is modelled as `None`.

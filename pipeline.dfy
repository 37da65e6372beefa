/**
 * The stages of Main.kt between note detection and the MIDI track: reshaping frame-by-frame
 * detections into per-key sequences (`convertIntoKeyFocused`), building every key's timeline
 * (`getTimeline`, `convertNotesToTimestamps`), flattening the timelines into one list of on and
 * off events (`convertInSingleTimeline`), moving that list to start at zero
 * (`shiftTimelineToStart`) and turning it into MIDI events (`createAndPlayMidi`).
 */
module Pipeline {
  import opened Results
  import opened Spans
  import opened Sequences
  import opened Sorting
  import opened Numbers
  import opened KeyTimeline
  import opened Speed
  import opened Midi

  // convertIntoKeyFocused

  /** Thrown when a frame names a key outside `0 until keyCount`. */
  datatype ReshapeError = KeyOutOfRange

  /** The sort key of `sortedBy { note -> note.second }`. */
  function Second(s: Span): real
  {
    s.second
  }

  /** Every key named in any frame is one of the `keyCount` keys. */
  predicate KeysInRange(notes: seq<map<int, seq<Span>>>, keyCount: int)
  {
    forall f, k :: 0 <= f < |notes| && k in notes[f] ==> 0 <= k < keyCount
  }

  /** The notes key `k` shows in frame `f`, sorted by their bottom edge; none when the frame
      does not name the key. */
  function Cell(notes: seq<map<int, seq<Span>>>, k: int, f: int): seq<Span>
    requires 0 <= f < |notes|
  {
    if k in notes[f] then SortBy(notes[f][k], Second) else []
  }

  /** The number of keys `0 until keyCount` ranges over. */
  function Rows(keyCount: int): nat
  {
    if keyCount < 0 then 0 else keyCount
  }

  /** Key-major: entry `[k][f]` is `Cell(notes, k, f)`. */
  function KeyFocused(notes: seq<map<int, seq<Span>>>, keyCount: int): seq<seq<seq<Span>>>
  {
    seq(Rows(keyCount), k requires 0 <= k < Rows(keyCount) =>
      seq(|notes|, f requires 0 <= f < |notes| => Cell(notes, k, f)))
  }

  /** What `convertIntoKeyFocused` returns or throws. */
  function KeyFocusedOf(notes: seq<map<int, seq<Span>>>, keyCount: int): Result<seq<seq<seq<Span>>>, ReshapeError>
  {
    if KeysInRange(notes, keyCount) then Ok(KeyFocused(notes, keyCount)) else Err(KeyOutOfRange)
  }

  /** `rows` lists of `cols` lists each. */
  predicate Grid<T>(g: seq<seq<T>>, rows: int, cols: int)
  {
    |g| == rows && forall k :: 0 <= k < rows ==> |g[k]| == cols
  }

  /** `convertIntoKeyFocused`: `keyCount` lists of `|notes|` empty lists, then every key's notes
      of every frame, sorted by bottom edge, appended to its cell. The keys of a frame are
      visited in no particular order. */
  method ConvertIntoKeyFocused(notes: seq<map<int, seq<Span>>>, keyCount: int)
    returns (r: Result<seq<seq<seq<Span>>>, ReshapeError>)
    ensures r == KeyFocusedOf(notes, keyCount)
  {
    var rows := Rows(keyCount);
    var frameCount := |notes|;
    var keyFocused := EmptyGrid(rows, frameCount);

    var f := 0;
    while f < frameCount
      invariant 0 <= f <= frameCount
      invariant Grid(keyFocused, rows, frameCount)
      invariant forall k, g :: 0 <= k < rows && 0 <= g < frameCount ==>
        keyFocused[k][g] == if g < f then Cell(notes, k, g) else []
      invariant forall g, k :: 0 <= g < f && k in notes[g] ==> 0 <= k < keyCount
    {
      var frame := notes[f];
      var ks := frame.Keys;
      while ks != {}
        invariant ks <= frame.Keys
        invariant Grid(keyFocused, rows, frameCount)
        invariant forall k, g :: 0 <= k < rows && 0 <= g < frameCount ==>
          keyFocused[k][g] == if g < f || (g == f && k !in ks) then Cell(notes, k, g) else []
        invariant forall k :: k in frame && k !in ks ==> 0 <= k < keyCount
        decreases ks
      {
        EmptyOrHasElement(ks);
        var kIndex :| kIndex in ks;
        if !(0 <= kIndex < rows) {
          assert kIndex in notes[f];
          return Err(KeyOutOfRange);
        }
        var sorted := SortBy(frame[kIndex], Second);
        assert keyFocused[kIndex][f] == [];
        keyFocused := AppendToCell(keyFocused, kIndex, f, sorted);
        assert keyFocused[kIndex][f] == Cell(notes, kIndex, f);
        ks := ks - {kIndex};
      }
      f := f + 1;
    }

    assert f == frameCount;
    assert forall g, k :: 0 <= g < frameCount && k in notes[g] ==> 0 <= k < keyCount;
    assert rows == keyCount || (keyCount < 0 && rows == 0);
    assert KeysInRange(notes, keyCount);
    var want := KeyFocused(notes, keyCount);
    forall k | 0 <= k < rows ensures keyFocused[k] == want[k] {
      assert forall g :: 0 <= g < frameCount ==> keyFocused[k][g] == want[k][g];
    }
    assert keyFocused == want;
    return Ok(keyFocused);
  }

  /** The first loop of `convertIntoKeyFocused`: `rows` lists of `cols` empty lists. */
  method EmptyGrid(rows: nat, cols: nat) returns (g: seq<seq<seq<Span>>>)
    ensures Grid(g, rows, cols)
    ensures forall k, f :: 0 <= k < rows && 0 <= f < cols ==> g[k][f] == []
  {
    g := [];
    for k := 0 to rows
      invariant |g| == k
      invariant forall i :: 0 <= i < k ==> |g[i]| == cols
      invariant forall i, f :: 0 <= i < k && 0 <= f < cols ==> g[i][f] == []
    {
      var keyList: seq<seq<Span>> := [];
      for f := 0 to cols
        invariant |keyList| == f && forall h :: 0 <= h < f ==> keyList[h] == []
      {
        keyList := keyList + [[]];
      }
      g := g + [keyList];
    }
  }

  /** The innermost loop of `convertIntoKeyFocused`: appends the notes one by one to cell
      `[k][f]`; nothing else changes. */
  method AppendToCell(g: seq<seq<seq<Span>>>, k: int, f: int, notes: seq<Span>) returns (g': seq<seq<seq<Span>>>)
    requires 0 <= k < |g| && 0 <= f < |g[k]|
    ensures g' == g[k := g[k][f := g[k][f] + notes]]
  {
    g' := g;
    assert g[k][f] + notes[..0] == g[k][f];
    assert g[k][f := g[k][f]] == g[k];
    for j := 0 to |notes|
      invariant g' == g[k := g[k][f := g[k][f] + notes[..j]]]
    {
      assert notes[..j + 1] == notes[..j] + [notes[j]];
      assert g'[k][f] + [notes[j]] == g[k][f] + notes[..j + 1];
      assert g'[k][f := g'[k][f] + [notes[j]]] == g[k][f := g[k][f] + notes[..j + 1]];
      g' := g'[k := g'[k][f := g'[k][f] + [notes[j]]]];
    }
    assert notes[..|notes|] == notes;
  }

  /** A set without elements is the empty set. */
  lemma EmptyOrHasElement(s: set<int>)
    ensures s == {} || exists x :: x in s
  {
    if forall x :: x !in s {
      assert s == {};
    }
  }

  /** The reshaped notes have one list per key and one entry per frame; an entry holds exactly
      the notes its frame shows for that key, sorted by bottom edge, and is empty when the frame
      does not name the key. The reshaping throws exactly when some frame names a key out of
      range. */
  lemma KeyFocusedSpec(notes: seq<map<int, seq<Span>>>, keyCount: int, k: int, f: int)
    requires 0 <= k < keyCount && 0 <= f < |notes|
    ensures KeyFocusedOf(notes, keyCount).Err? <==> exists g, i :: 0 <= g < |notes| && i in notes[g] && !(0 <= i < keyCount)
    ensures KeyFocusedOf(notes, keyCount).Ok? ==>
      var r := KeyFocusedOf(notes, keyCount).value;
      Grid(r, keyCount, |notes|)
      && (k in notes[f] ==> SortedBy(r[k][f], Second) && multiset(r[k][f]) == multiset(notes[f][k]))
      && (k !in notes[f] ==> r[k][f] == [])
  {
    if k in notes[f] {
      SortBySpec(notes[f][k], Second);
    }
  }

  /** The frames of the unit test of `convertIntoKeyFocused`, as (top, bottom) pairs. */
  function ReshapeExampleNotes(): seq<map<int, seq<Span>>>
  {
    [ map[0 := [Span(24.0, 0.0), Span(78.0, 56.0)], 1 := [Span(122.0, 56.0)]],
      map[0 := [Span(36.0, 12.0), Span(80.0, 68.0)], 1 := [Span(134.0, 68.0)], 4 := [Span(12.0, 0.0)]],
      map[4 := [Span(24.0, 0.0)]] ]
  }

  /** The unit test of `convertIntoKeyFocused` with five keys: keys 2 and 3 stay empty and the
      notes of each key keep their order, being already sorted by bottom edge. */
  lemma ReshapeExample()
    ensures KeyFocusedOf(ReshapeExampleNotes(), 5) == Ok([
      [[Span(24.0, 0.0), Span(78.0, 56.0)], [Span(36.0, 12.0), Span(80.0, 68.0)], []],
      [[Span(122.0, 56.0)], [Span(134.0, 68.0)], []],
      [[], [], []],
      [[], [], []],
      [[], [Span(12.0, 0.0)], [Span(24.0, 0.0)]] ])
  {
    var notes := ReshapeExampleNotes();
    assert KeysInRange(notes, 5);
    var r := KeyFocused(notes, 5);
    ReshapeExampleFirstKey();
    ReshapeExampleOtherKeys();
    assert r[2] == [[], [], []] && r[3] == [[], [], []];
    assert r == [r[0], r[1], r[2], r[3], r[4]];
  }

  /** Key 0 of the example: two notes in each of the first two frames, kept in order. */
  lemma ReshapeExampleFirstKey()
    ensures KeyFocused(ReshapeExampleNotes(), 5)[0]
      == [[Span(24.0, 0.0), Span(78.0, 56.0)], [Span(36.0, 12.0), Span(80.0, 68.0)], []]
  {
    var a, b := [Span(24.0, 0.0), Span(78.0, 56.0)], [Span(36.0, 12.0), Span(80.0, 68.0)];
    assert SortBy(a, Second) == a by {
      assert a[..1] == [a[0]];
      SortByAppendOne(a[..1], a[1], Second);
    }
    assert SortBy(b, Second) == b by {
      assert b[..1] == [b[0]];
      SortByAppendOne(b[..1], b[1], Second);
    }
  }

  /** Keys 1 and 4 of the example: at most one note per frame. */
  lemma ReshapeExampleOtherKeys()
    ensures KeyFocused(ReshapeExampleNotes(), 5)[1] == [[Span(122.0, 56.0)], [Span(134.0, 68.0)], []]
    ensures KeyFocused(ReshapeExampleNotes(), 5)[4] == [[], [Span(12.0, 0.0)], [Span(24.0, 0.0)]]
  {
    SortBySingle(Span(122.0, 56.0), Second);
    SortBySingle(Span(134.0, 68.0), Second);
    SortBySingle(Span(12.0, 0.0), Second);
    SortBySingle(Span(24.0, 0.0), Second);
  }

  // getTimeline and convertNotesToTimestamps

  /** One timeline per key. */
  function KeyTimelines(keyFocused: seq<seq<seq<Span>>>, speed: real, height: real): (r: seq<seq<Span>>)
  {
    Map(keyFocused, (key: seq<seq<Span>>) => KeyTimelineOf(key, speed, height))
  }

  /** `getTimeline`: appends every key's timeline to `timeline`, which it returns. */
  method GetTimeline(keyFocused: seq<seq<seq<Span>>>, speed: real, height: real, timeline: seq<seq<Span>>)
    returns (r: seq<seq<Span>>)
    ensures |r| == |timeline| + |keyFocused|
    ensures r[..|timeline|] == timeline
    ensures forall k :: 0 <= k < |keyFocused| ==> r[|timeline| + k] == KeyTimelineOf(keyFocused[k], speed, height)
  {
    r := timeline;
    for k := 0 to |keyFocused|
      invariant |r| == |timeline| + k && r[..|timeline|] == timeline
      invariant forall i :: 0 <= i < k ==> r[|timeline| + i] == KeyTimelineOf(keyFocused[i], speed, height)
    {
      var keyTimeline := GetKeyTimeline(keyFocused[k], speed, height);
      r := r + [keyTimeline];
    }
  }

  /** What `convertNotesToTimestamps` returns: no timelines when no speed could be estimated,
      else one per key at the estimated speed. The speed is estimated on the truncated height. */
  function Timestamps(notes: seq<seq<seq<Span>>>, height: real): seq<seq<Span>>
    requires ValidNotes(notes) && Truncate(height) >= 2
  {
    var speed := EstimatedSpeed(notes, Truncate(height));
    if speed == -1.0 then [] else KeyTimelines(notes, speed, height)
  }

  /** `convertNotesToTimestamps`. */
  method ConvertNotesToTimestamps(notes: seq<seq<seq<Span>>>, height: real) returns (r: seq<seq<Span>>)
    requires ValidNotes(notes) && Truncate(height) >= 2
    ensures r == Timestamps(notes, height)
  {
    var speed := EstimateSpeed(notes, Truncate(height));
    if speed == -1.0 {
      return [];
    }
    r := GetTimeline(notes, speed, height, []);
  }

  /** The timelines are missing exactly when no two consecutive frames of any key both show a
      note; otherwise there is one per key, built at a speed of 1 to `height - 1` pixels per
      frame, and each is the combined timeline of its key at that speed. */
  lemma TimestampsSpec(notes: seq<seq<seq<Span>>>, height: real)
    requires ValidNotes(notes) && Truncate(height) >= 2
    ensures Timestamps(notes, height) == [] <==> AllOffsets(notes, Truncate(height)) == [] || notes == []
    ensures AllOffsets(notes, Truncate(height)) != [] ==>
      var speed := EstimatedSpeed(notes, Truncate(height));
      1.0 <= speed <= (Truncate(height) - 1) as real
      && |Timestamps(notes, height)| == |notes|
      && forall k :: 0 <= k < |notes| ==> Timestamps(notes, height)[k] == KeyTimelineOf(notes[k], speed, height)
  {
    EstimatedSpeedSpec(notes, Truncate(height));
  }

  // convertInSingleTimeline

  /** `Triple(time, keyIndex, onOrOff)`. */
  datatype TimedEvent = TimedEvent(time: real, key: int, on: bool)

  /** The on and off events of the notes of one key, note by note. */
  function KeyEvents(spans: seq<Span>, key: int): (r: seq<TimedEvent>)
    ensures |r| == 2 * |spans|
  {
    if spans == [] then []
    else
      var last := spans[|spans| - 1];
      KeyEvents(spans[..|spans| - 1], key) + [TimedEvent(last.first, key, true), TimedEvent(last.second, key, false)]
  }

  /** The events of every key, key by key; key `k` is the `k`-th timeline. */
  function SingleTimeline(timeline: seq<seq<Span>>): seq<TimedEvent>
  {
    if timeline == [] then []
    else SingleTimeline(timeline[..|timeline| - 1]) + KeyEvents(timeline[|timeline| - 1], |timeline| - 1)
  }

  /** `convertInSingleTimeline`. */
  method ConvertInSingleTimeline(timeline: seq<seq<Span>>) returns (r: seq<TimedEvent>)
    ensures r == SingleTimeline(timeline)
  {
    r := [];
    for keyIndex := 0 to |timeline|
      invariant r == SingleTimeline(timeline[..keyIndex])
    {
      var events := timeline[keyIndex];
      ghost var before := r;
      for j := 0 to |events|
        invariant r == before + KeyEvents(events[..j], keyIndex)
      {
        assert events[..j + 1][..j] == events[..j];
        r := r + [TimedEvent(events[j].first, keyIndex, true)];
        r := r + [TimedEvent(events[j].second, keyIndex, false)];
      }
      assert events[..|events|] == events;
      assert timeline[..keyIndex + 1][..keyIndex] == timeline[..keyIndex];
    }
    assert timeline[..|timeline|] == timeline;
  }

  /** The notes of a key read back from its events: each on event and the off event after it. */
  function Regroup(events: seq<TimedEvent>): (r: seq<Span>)
  {
    if |events| < 2 then []
    else Regroup(events[..|events| - 2]) + [Span(events[|events| - 2].time, events[|events| - 1].time)]
  }

  function OfKey(k: int): TimedEvent -> bool
  {
    (e: TimedEvent) => e.key == k
  }

  lemma {:induction false} RegroupKeyEvents(spans: seq<Span>, key: int)
    ensures Regroup(KeyEvents(spans, key)) == spans
  {
    if spans != [] {
      var init := spans[..|spans| - 1];
      var ev := KeyEvents(spans, key);
      RegroupKeyEvents(init, key);
      assert ev[..|ev| - 2] == KeyEvents(init, key);
      assert spans == init + [spans[|spans| - 1]];
    }
  }

  lemma {:induction false} FilterKeyEvents(spans: seq<Span>, key: int, k: int)
    ensures Filter(KeyEvents(spans, key), OfKey(k)) == if key == k then KeyEvents(spans, key) else []
  {
    if spans != [] {
      var last := spans[|spans| - 1];
      var pair := [TimedEvent(last.first, key, true), TimedEvent(last.second, key, false)];
      FilterKeyEvents(spans[..|spans| - 1], key, k);
      FilterAppend(KeyEvents(spans[..|spans| - 1], key), pair, OfKey(k));
      assert pair[1..][1..] == [];
    }
  }

  /** The events of key `k` in the single timeline are the events of its own timeline. */
  lemma {:induction false} FilterSingleTimeline(timeline: seq<seq<Span>>, k: int)
    ensures Filter(SingleTimeline(timeline), OfKey(k)) == if 0 <= k < |timeline| then KeyEvents(timeline[k], k) else []
  {
    if timeline != [] {
      var n := |timeline| - 1;
      var init := timeline[..n];
      FilterSingleTimeline(init, k);
      FilterAppend(SingleTimeline(init), KeyEvents(timeline[n], n), OfKey(k));
      FilterKeyEvents(timeline[n], n, k);
      if 0 <= k < n {
        assert init[k] == timeline[k];
      }
    }
  }

  /** The single timeline loses nothing: taking the events of key `k` and pairing each on event
      with the off event after it gives back key `k`'s timeline. */
  lemma SingleTimelineRoundTrip(timeline: seq<seq<Span>>, k: int)
    requires 0 <= k < |timeline|
    ensures Regroup(Filter(SingleTimeline(timeline), OfKey(k))) == timeline[k]
  {
    FilterSingleTimeline(timeline, k);
    RegroupKeyEvents(timeline[k], k);
  }

  // shiftTimelineToStart

  /** The sort key of `sortedBy { it.first }` and the selector of `minOf { it.first }`. */
  function Time(e: TimedEvent): real
  {
    e.time
  }

  /** `shiftTimelineToStart`: every event moved earlier by the earliest time. */
  method ShiftTimelineToStart(timeline: seq<TimedEvent>) returns (r: seq<TimedEvent>)
    ensures |r| == |timeline|
    ensures timeline != [] ==> forall i :: 0 <= i < |r| ==>
      r[i] == TimedEvent(timeline[i].time - Min(Map(timeline, Time)), timeline[i].key, timeline[i].on)
    ensures forall i :: 0 <= i < |r| ==> r[i].time >= 0.0
    ensures timeline != [] ==> exists i :: 0 <= i < |r| && r[i].time == 0.0
  {
    if timeline == [] {
      return timeline;
    }
    var times := Map(timeline, Time);
    var offset := Min(times);
    r := [];
    for i := 0 to |timeline|
      invariant |r| == i
      invariant forall j :: 0 <= j < i ==> r[j] == TimedEvent(timeline[j].time - offset, timeline[j].key, timeline[j].on)
    {
      var note := timeline[i];
      r := r + [TimedEvent(note.time - offset, note.key, note.on)];
    }
    ShiftedTimes(times, offset, r);
  }

  /** Times moved earlier by their least one are never negative, and one of them is zero. */
  lemma ShiftedTimes(times: seq<real>, offset: real, r: seq<TimedEvent>)
    requires times != [] && offset == Min(times) && |r| == |times|
    requires forall i :: 0 <= i < |r| ==> r[i].time == times[i] - offset
    ensures forall i :: 0 <= i < |r| ==> r[i].time >= 0.0
    ensures exists i :: 0 <= i < |r| && r[i].time == 0.0
  {
    var m :| 0 <= m < |times| && times[m] == offset;
    assert r[m].time == 0.0;
  }

  /** Shifting keeps the distance between any two events and every event's key and kind. */
  lemma ShiftKeepsDistances(timeline: seq<TimedEvent>, r: seq<TimedEvent>, i: int, j: int)
    requires timeline != [] && |r| == |timeline|
    requires forall i :: 0 <= i < |r| ==>
      r[i] == TimedEvent(timeline[i].time - Min(Map(timeline, Time)), timeline[i].key, timeline[i].on)
    requires 0 <= i < |r| && 0 <= j < |r|
    ensures r[j].time - r[i].time == timeline[j].time - timeline[i].time
    ensures r[i].key == timeline[i].key && r[i].on == timeline[i].on
  {
  }

  // createAndPlayMidi

  /** The event `createAndPlayMidi` makes of a timed event: on channel 1 at velocity 100, the
      tick the time divided by `playSpeed` with the fraction dropped. */
  function MainMidiEvent(e: TimedEvent, playSpeed: real): MidiEvent
    requires playSpeed != 0.0
  {
    MidiEvent(e.on, 1, e.key + BaseNote, Velocity, Truncate(e.time / playSpeed))
  }

  function MainToMidi(playSpeed: real): TimedEvent -> MidiEvent
    requires playSpeed != 0.0
  {
    (e: TimedEvent) => MainMidiEvent(e, playSpeed)
  }

  /** The track: the events sorted by time, each converted. */
  function MainTrack(timeline: seq<TimedEvent>, playSpeed: real): seq<MidiEvent>
    requires playSpeed != 0.0
  {
    Map(SortBy(timeline, Time), MainToMidi(playSpeed))
  }

  /** The events `createAndPlayMidi` adds to its track, in order. */
  method CreateAndPlayMidi(timeline: seq<TimedEvent>, playSpeed: real) returns (track: seq<MidiEvent>)
    requires playSpeed != 0.0
    ensures track == MainTrack(timeline, playSpeed)
  {
    var timelineSorted := SortBy(timeline, Time);
    track := [];
    for i := 0 to |timelineSorted|
      invariant |track| == i
      invariant forall j :: 0 <= j < i ==> track[j] == MainMidiEvent(timelineSorted[j], playSpeed)
    {
      var event := timelineSorted[i];
      if event.on {
        track := track + [MidiEvent(true, 1, event.key + BaseNote, Velocity, Truncate(event.time / playSpeed))];
      } else {
        track := track + [MidiEvent(false, 1, event.key + BaseNote, Velocity, Truncate(event.time / playSpeed))];
      }
    }
  }

  /** The track holds the converted timed events, each as often as it occurs in the timeline
      and reordered by time: a note on exactly for an on event, for the key's note number. At a
      positive play speed the ticks never decrease. */
  lemma MainTrackSpec(timeline: seq<TimedEvent>, playSpeed: real)
    requires playSpeed != 0.0
    ensures |MainTrack(timeline, playSpeed)| == |timeline|
    ensures multiset(MainTrack(timeline, playSpeed)) == multiset(Map(timeline, MainToMidi(playSpeed)))
    ensures forall i :: 0 <= i < |timeline| ==>
      exists j :: 0 <= j < |timeline| && MainTrack(timeline, playSpeed)[i] == MainMidiEvent(timeline[j], playSpeed)
    ensures playSpeed > 0.0 ==> forall i, j :: 0 <= i < j < |timeline| ==>
      MainTrack(timeline, playSpeed)[i].tick <= MainTrack(timeline, playSpeed)[j].tick
  {
    var sorted := SortBy(timeline, Time);
    var track := MainTrack(timeline, playSpeed);
    SortBySpec(timeline, Time);
    MapPermutation(sorted, timeline, MainToMidi(playSpeed));
    forall i | 0 <= i < |timeline| ensures exists j :: 0 <= j < |timeline| && track[i] == MainMidiEvent(timeline[j], playSpeed) {
      assert sorted[i] in multiset(timeline);
      var j :| 0 <= j < |timeline| && timeline[j] == sorted[i];
    }
    if playSpeed > 0.0 {
      forall i, j | 0 <= i < j < |timeline| ensures track[i].tick <= track[j].tick {
        assert sorted[i].time <= sorted[j].time;
        DivMonotone(sorted[i].time, sorted[j].time, playSpeed);
        TruncateMonotone(sorted[i].time / playSpeed, sorted[j].time / playSpeed);
      }
    }
  }
}

/**
 * The per-key timeline of Main.kt (`getKeyTimeline`): every note a key shows in a frame is
 * placed on one pixel timeline, the notes are sorted by start, and overlapping sightings of
 * the same note are combined.
 */
module KeyTimeline {
  import opened Spans
  import opened Sequences
  import opened Sorting

  /** The sort key of `sortBy { note -> note.first }`. */
  function Start(s: Span): real
  {
    s.first
  }

  /** A note seen as `(top, bottom)` in the frame taken at `time` becomes the timeline span
      `(time + height - bottom, time + height - top)`: rows are counted from the bottom edge. */
  function Place(note: Span, time: real, height: real): Span
  {
    Span(time + (height - note.second), time + (height - note.first))
  }

  /** The placed spans of one frame, in the frame's order. */
  function FrameSpans(frame: seq<Span>, time: real, height: real): (r: seq<Span>)
    ensures |r| == |frame|
  {
    if frame == [] then [] else [Place(frame[0], time, height)] + FrameSpans(frame[1..], time, height)
  }

  /** All placed spans of `key`, one frame after the other, the first frame taken at `time`
      and each next one `speed` later. */
  function RawTimeline(key: seq<seq<Span>>, time: real, speed: real, height: real): seq<Span>
  {
    if key == [] then []
    else FrameSpans(key[0], time, height) + RawTimeline(key[1..], time + speed, speed, height)
  }

  /**
   * The combining loop from some point on: `clean` is the output so far and `prevEnd` the end
   * it compares against. A note starting at or before `prevEnd` belongs to the last output
   * note and, when it ends earlier, cuts that note's end back to its own; any other note
   * starts a new output note.
   */
  function MergeFrom(clean: seq<Span>, prevEnd: real, rest: seq<Span>): seq<Span>
    requires clean != []
    decreases |rest|
  {
    if rest == [] then clean
    else
      var (clean', prevEnd') := MergeStep(clean, prevEnd, rest[0]);
      MergeFrom(clean', prevEnd', rest[1..])
  }

  /** One pass of the combining loop's body. */
  function MergeStep(clean: seq<Span>, prevEnd: real, note: Span): (r: (seq<Span>, real))
    requires clean != []
    ensures r.0 != []
  {
    if prevEnd >= note.first then
      if note.second < prevEnd then
        (clean[..|clean| - 1] + [Span(clean[|clean| - 1].first, note.second)], note.second)
      else
        (clean, prevEnd)
    else
      (clean + [note], note.second)
  }

  /** The combined timeline of start-sorted spans; the loop visits the first note again. */
  function Merge(t: seq<Span>): seq<Span>
  {
    if t == [] then [] else MergeFrom([t[0]], t[0].second, t)
  }

  /** `getKeyTimeline`'s result in terms of its inputs. */
  function KeyTimelineOf(key: seq<seq<Span>>, speed: real, height: real): seq<Span>
  {
    Merge(SortBy(RawTimeline(key, 0.0, speed, height), Start))
  }

  /** The first loop of `getKeyTimeline`: every sighting of every frame, placed on the timeline. */
  method PlaceSightings(key: seq<seq<Span>>, speed: real, height: real) returns (timeline: seq<Span>)
    ensures timeline == RawTimeline(key, 0.0, speed, height)
  {
    timeline := [];
    var currentTime := 0.0;
    var f := 0;
    while f < |key|
      invariant 0 <= f <= |key|
      invariant timeline + RawTimeline(key[f..], currentTime, speed, height) == RawTimeline(key, 0.0, speed, height)
    {
      var frame := key[f];
      var j := 0;
      ghost var before := timeline;
      while j < |frame|
        invariant 0 <= j <= |frame|
        invariant timeline == before + FrameSpans(frame[..j], currentTime, height)
      {
        var note := frame[j];
        FrameSpansSnoc(frame[..j], note, currentTime, height);
        assert frame[..j + 1] == frame[..j] + [note];
        timeline := timeline + [Span(currentTime + (height - note.second), currentTime + (height - note.first))];
        j := j + 1;
      }
      assert frame[..j] == frame;
      assert key[f..][1..] == key[f + 1..];
      currentTime := currentTime + speed;
      f := f + 1;
    }
  }

  /** The combining loop of `getKeyTimeline` over a non-empty timeline. */
  method CombineOverlapping(timeline: seq<Span>) returns (clean: seq<Span>)
    requires timeline != []
    ensures clean == Merge(timeline)
  {
    clean := [timeline[0]];
    var previousEnd := timeline[0].second;
    var i := 0;
    while i < |timeline|
      invariant 0 <= i <= |timeline| && clean != []
      invariant MergeFrom(clean, previousEnd, timeline[i..]) == Merge(timeline)
    {
      var note := timeline[i];
      assert timeline[i..][1..] == timeline[i + 1..];
      if previousEnd >= note.first {
        if note.second < previousEnd {
          var last := clean[|clean| - 1];
          clean := clean[..|clean| - 1] + [Span(last.first, note.second)];
          previousEnd := note.second;
        }
      } else {
        clean := clean + [note];
        previousEnd := note.second;
      }
      i := i + 1;
    }
  }

  /** `getKeyTimeline`: place every sighting, sort by start, combine. */
  method GetKeyTimeline(key: seq<seq<Span>>, speed: real, height: real) returns (r: seq<Span>)
    ensures r == KeyTimelineOf(key, speed, height)
  {
    var timeline := PlaceSightings(key, speed, height);
    if timeline == [] {
      return [];
    }
    timeline := SortBy(timeline, Start);
    r := CombineOverlapping(timeline);
  }

  lemma {:induction false} FrameSpansSnoc(frame: seq<Span>, note: Span, time: real, height: real)
    ensures FrameSpans(frame + [note], time, height) == FrameSpans(frame, time, height) + [Place(note, time, height)]
  {
    if frame == [] {
      assert [note][1..] == [];
    } else {
      assert (frame + [note])[1..] == frame[1..] + [note];
      FrameSpansSnoc(frame[1..], note, time, height);
    }
  }

  /** Every span ends strictly before the next one starts. */
  predicate Gapped(s: seq<Span>)
  {
    forall j, k :: 0 <= j < k < |s| ==> s[j].second < s[k].first
  }

  predicate Covers(s: Span, x: real)
  {
    s.first <= x <= s.second
  }

  /** `x` lies inside some span of `r`. */
  predicate Covered(r: seq<Span>, x: real)
  {
    exists k :: 0 <= k < |r| && Covers(r[k], x)
  }

  /** Every input start lies inside some output span. */
  predicate CoversStarts(t: seq<Span>, n: int, r: seq<Span>)
    requires 0 <= n <= |t|
  {
    forall j {:trigger Covered(r, t[j].first)} :: 0 <= j < n ==> Covered(r, t[j].first)
  }

  /** An output span containing an input's start ends no later than that input does. */
  predicate EndsAtEarliest(t: seq<Span>, n: int, r: seq<Span>)
    requires 0 <= n <= |t|
  {
    forall j, k :: 0 <= j < n && 0 <= k < |r| && Covers(r[k], t[j].first) ==> r[k].second <= t[j].second
  }

  /** `x` is the start of one of the first `n` inputs. */
  predicate InputStart(t: seq<Span>, n: int, x: real)
    requires 0 <= n <= |t|
  {
    exists j :: 0 <= j < n && x == t[j].first
  }

  /** `s` ends where one of the first `n` inputs ends, and contains that input's start. */
  predicate EndOfCovered(t: seq<Span>, n: int, s: Span)
    requires 0 <= n <= |t|
  {
    exists j :: 0 <= j < n && Covers(s, t[j].first) && s.second == t[j].second
  }

  /** Every output span starts where some input starts. */
  predicate StartsFromInputs(t: seq<Span>, n: int, r: seq<Span>)
    requires 0 <= n <= |t|
  {
    forall k :: 0 <= k < |r| ==> InputStart(t, n, r[k].first)
  }

  /** Every output span ends where some input whose start it contains ends. */
  predicate EndsFromInputs(t: seq<Span>, n: int, r: seq<Span>)
    requires 0 <= n <= |t|
  {
    forall k :: 0 <= k < |r| ==> EndOfCovered(t, n, r[k])
  }

  /** What the combining loop guarantees about its output for the first `n` inputs. With
      `EndsAtEarliest`, `EndsFromInputs` makes each output end the least end among the inputs
      whose starts it contains, and `StartsFromInputs` makes each output start the least of
      those starts. */
  predicate MergedUpTo(t: seq<Span>, n: int, r: seq<Span>)
    requires 0 <= n <= |t|
  {
    AllWellFormed(r) && Gapped(r) && |r| <= n && CoversStarts(t, n, r) && EndsAtEarliest(t, n, r)
    && StartsFromInputs(t, n, r) && EndsFromInputs(t, n, r)
  }

  /** The loop invariant of the combining loop after `i` inputs. */
  predicate MergeInv(t: seq<Span>, i: int, clean: seq<Span>, prevEnd: real)
  {
    1 <= i <= |t| && clean != []
    && prevEnd == clean[|clean| - 1].second
    && clean[|clean| - 1].first <= t[i - 1].first
    && MergedUpTo(t, i, clean)
  }

  lemma EndsBelowPrevEnd(clean: seq<Span>)
    requires clean != [] && AllWellFormed(clean) && Gapped(clean)
    ensures forall k :: 0 <= k < |clean| ==> clean[k].second <= clean[|clean| - 1].second
  {
    forall k | 0 <= k < |clean| - 1
      ensures clean[k].second <= clean[|clean| - 1].second
    {
      assert clean[k].second < clean[|clean| - 1].first;
      assert WellFormed(clean[|clean| - 1]);
    }
  }

  /** More inputs leave every output start and end attained. */
  lemma AttainedGrows(t: seq<Span>, i: int, r: seq<Span>)
    requires 0 <= i < |t| && StartsFromInputs(t, i, r) && EndsFromInputs(t, i, r)
    ensures StartsFromInputs(t, i + 1, r) && EndsFromInputs(t, i + 1, r)
  {
    forall k | 0 <= k < |r| ensures InputStart(t, i + 1, r[k].first) {
      var j :| 0 <= j < i && r[k].first == t[j].first;
    }
    forall k | 0 <= k < |r| ensures EndOfCovered(t, i + 1, r[k]) {
      var j :| 0 <= j < i && Covers(r[k], t[j].first) && r[k].second == t[j].second;
    }
  }

  /** The shape of the output after cutting its last note back to the end of `n`. */
  lemma ShrinkShape(clean: seq<Span>, n: Span, c: seq<Span>)
    requires clean != [] && AllWellFormed(clean) && Gapped(clean) && WellFormed(n)
    requires clean[|clean| - 1].first <= n.first
    requires c == clean[..|clean| - 1] + [Span(clean[|clean| - 1].first, n.second)]
    ensures AllWellFormed(c) && Gapped(c)
  {
    var m := |clean| - 1;
    forall k | 0 <= k < |c| ensures WellFormed(c[k]) {
      if k < m { assert c[k] == clean[k]; }
    }
    forall j, k | 0 <= j < k < |c| ensures c[j].second < c[k].first {
      assert c[j] == clean[j];
      if k < m { assert c[k] == clean[k]; }
    }
  }

  /** Cutting the last note back to the end of input `i`, which starts inside it and ends
      before it, keeps every start covered by a note ending no later than its input. */
  lemma ShrinkCovers(t: seq<Span>, i: int, clean: seq<Span>, c: seq<Span>)
    requires 0 <= i < |t| && clean != [] && WellFormed(t[i]) && Gapped(clean)
    requires forall j :: 0 <= j < i ==> t[j].first <= t[i].first
    requires CoversStarts(t, i, clean) && EndsAtEarliest(t, i, clean)
    requires clean[|clean| - 1].first <= t[i].first && t[i].second < clean[|clean| - 1].second
    requires c == clean[..|clean| - 1] + [Span(clean[|clean| - 1].first, t[i].second)]
    ensures CoversStarts(t, i + 1, c) && EndsAtEarliest(t, i + 1, c)
  {
    var n, m := t[i], |clean| - 1;
    forall j | 0 <= j < i + 1 ensures Covered(c, t[j].first) {
      if j == i {
        assert Covers(c[m], t[j].first);
      } else {
        assert Covered(clean, t[j].first);
        var k :| 0 <= k < |clean| && Covers(clean[k], t[j].first);
        if k < m {
          assert c[k] == clean[k];
        } else {
          assert Covers(c[m], t[j].first);
        }
      }
    }
    forall j, k | 0 <= j < i + 1 && 0 <= k < |c| && Covers(c[k], t[j].first)
      ensures c[k].second <= t[j].second
    {
      if k < m {
        assert c[k] == clean[k];
        if j == i {
          assert false;
        }
      } else if j < i {
        assert Covers(clean[m], t[j].first);
      }
    }
  }

  /** The cut-back note keeps its start and takes the end of input `i`, whose start it contains. */
  lemma ShrinkAttained(t: seq<Span>, i: int, clean: seq<Span>, c: seq<Span>)
    requires 0 <= i < |t| && clean != [] && WellFormed(t[i])
    requires StartsFromInputs(t, i, clean) && EndsFromInputs(t, i, clean)
    requires clean[|clean| - 1].first <= t[i].first
    requires c == clean[..|clean| - 1] + [Span(clean[|clean| - 1].first, t[i].second)]
    ensures StartsFromInputs(t, i + 1, c) && EndsFromInputs(t, i + 1, c)
  {
    var m := |clean| - 1;
    AttainedGrows(t, i, clean);
    forall k | 0 <= k < |c| ensures InputStart(t, i + 1, c[k].first) {
      assert c[k].first == clean[k].first;
    }
    forall k | 0 <= k < |c| ensures EndOfCovered(t, i + 1, c[k]) {
      if k < m {
        assert c[k] == clean[k];
      } else {
        assert Covers(c[m], t[i].first) && c[m].second == t[i].second;
      }
    }
  }

  /** The step that cuts the last output note back to the end of the current one. */
  lemma StepShrinks(t: seq<Span>, i: int, clean: seq<Span>, prevEnd: real)
    requires SortedBy(t, Start) && AllWellFormed(t)
    requires MergeInv(t, i, clean, prevEnd) && i < |t|
    requires prevEnd >= t[i].first && t[i].second < prevEnd
    ensures MergeInv(t, i + 1, MergeStep(clean, prevEnd, t[i]).0, MergeStep(clean, prevEnd, t[i]).1)
  {
    var n, m := t[i], |clean| - 1;
    var c := clean[..m] + [Span(clean[m].first, n.second)];
    assert MergeStep(clean, prevEnd, n) == (c, n.second);
    assert Start(t[i - 1]) <= Start(n);
    assert WellFormed(n);
    forall j | 0 <= j < i ensures t[j].first <= t[i].first {
      assert Start(t[j]) <= Start(t[i]);
    }
    ShrinkShape(clean, n, c);
    ShrinkCovers(t, i, clean, c);
    ShrinkAttained(t, i, clean, c);
  }

  /** Appending input `i`, which starts after every output note ends, keeps every start
      covered by a note ending no later than its input. */
  lemma AppendCovers(t: seq<Span>, i: int, clean: seq<Span>, c: seq<Span>)
    requires 0 <= i < |t| && clean != [] && WellFormed(t[i])
    requires forall j :: 0 <= j < i ==> t[j].first <= t[i].first
    requires forall k :: 0 <= k < |clean| ==> clean[k].second < t[i].first
    requires CoversStarts(t, i, clean) && EndsAtEarliest(t, i, clean)
    requires c == clean + [t[i]]
    ensures CoversStarts(t, i + 1, c) && EndsAtEarliest(t, i + 1, c)
  {
    var m := |clean| - 1;
    forall j | 0 <= j < i + 1 ensures Covered(c, t[j].first) {
      if j == i {
        assert Covers(c[m + 1], t[j].first);
      } else {
        assert Covered(clean, t[j].first);
        var k :| 0 <= k < |clean| && Covers(clean[k], t[j].first);
        assert c[k] == clean[k];
      }
    }
    forall j | 0 <= j < i ensures t[j].first < t[i].first {
      assert Covered(clean, t[j].first);
      var k :| 0 <= k < |clean| && Covers(clean[k], t[j].first);
    }
    forall j, k | 0 <= j < i + 1 && 0 <= k < |c| && Covers(c[k], t[j].first)
      ensures c[k].second <= t[j].second
    {
      if k <= m {
        assert c[k] == clean[k];
      } else if j < i {
        assert false;
      }
    }
  }

  /** An appended note is an input of its own. */
  lemma AppendAttained(t: seq<Span>, i: int, clean: seq<Span>, c: seq<Span>)
    requires 0 <= i < |t| && WellFormed(t[i])
    requires StartsFromInputs(t, i, clean) && EndsFromInputs(t, i, clean)
    requires c == clean + [t[i]]
    ensures StartsFromInputs(t, i + 1, c) && EndsFromInputs(t, i + 1, c)
  {
    var m := |clean| - 1;
    AttainedGrows(t, i, clean);
    forall k | 0 <= k < |c| ensures InputStart(t, i + 1, c[k].first) {
      if k <= m {
        assert c[k] == clean[k];
      } else {
        assert c[k] == t[i];
      }
    }
    forall k | 0 <= k < |c| ensures EndOfCovered(t, i + 1, c[k]) {
      if k <= m {
        assert c[k] == clean[k];
      } else {
        assert c[k] == t[i] && Covers(t[i], t[i].first);
      }
    }
  }

  /** The step that starts a new output note. */
  lemma StepAppends(t: seq<Span>, i: int, clean: seq<Span>, prevEnd: real)
    requires SortedBy(t, Start) && AllWellFormed(t)
    requires MergeInv(t, i, clean, prevEnd) && i < |t|
    requires prevEnd < t[i].first
    ensures MergeInv(t, i + 1, MergeStep(clean, prevEnd, t[i]).0, MergeStep(clean, prevEnd, t[i]).1)
  {
    var n, m := t[i], |clean| - 1;
    var c := clean + [n];
    assert MergeStep(clean, prevEnd, n) == (c, n.second);
    assert WellFormed(n);
    EndsBelowPrevEnd(clean);
    forall j | 0 <= j < i ensures t[j].first <= t[i].first {
      assert Start(t[j]) <= Start(t[i]);
    }
    forall k | 0 <= k < |c| ensures WellFormed(c[k]) {
      if k <= m { assert c[k] == clean[k]; }
    }
    forall j, k | 0 <= j < k < |c| ensures c[j].second < c[k].first {
      assert c[j] == clean[j];
      if k <= m { assert c[k] == clean[k]; }
    }
    AppendCovers(t, i, clean, c);
    AppendAttained(t, i, clean, c);
  }

  /** Input `i` starts inside the last output note and ends no earlier, so nothing changes. */
  lemma KeepCovers(t: seq<Span>, i: int, clean: seq<Span>)
    requires 0 <= i < |t| && clean != [] && Gapped(clean)
    requires CoversStarts(t, i, clean) && EndsAtEarliest(t, i, clean)
    requires clean[|clean| - 1].first <= t[i].first <= clean[|clean| - 1].second <= t[i].second
    ensures CoversStarts(t, i + 1, clean) && EndsAtEarliest(t, i + 1, clean)
  {
    var m := |clean| - 1;
    forall j | 0 <= j < i + 1 ensures Covered(clean, t[j].first) {
      if j == i {
        assert Covers(clean[m], t[j].first);
      }
    }
    forall j, k | 0 <= j < i + 1 && 0 <= k < |clean| && Covers(clean[k], t[j].first)
      ensures clean[k].second <= t[j].second
    {
      if j == i && k < m {
        assert false;
      }
    }
  }

  /** The step that leaves the output as it is. */
  lemma StepKeeps(t: seq<Span>, i: int, clean: seq<Span>, prevEnd: real)
    requires SortedBy(t, Start) && AllWellFormed(t)
    requires MergeInv(t, i, clean, prevEnd) && i < |t|
    requires prevEnd >= t[i].first && t[i].second >= prevEnd
    ensures MergeInv(t, i + 1, MergeStep(clean, prevEnd, t[i]).0, MergeStep(clean, prevEnd, t[i]).1)
  {
    var n := t[i];
    assert MergeStep(clean, prevEnd, n) == (clean, prevEnd);
    assert Start(t[i - 1]) <= Start(n);
    KeepCovers(t, i, clean);
    AttainedGrows(t, i, clean);
  }

  lemma {:induction false} MergeFromInv(t: seq<Span>, i: int, clean: seq<Span>, prevEnd: real)
    requires SortedBy(t, Start) && AllWellFormed(t)
    requires MergeInv(t, i, clean, prevEnd)
    ensures MergedUpTo(t, |t|, MergeFrom(clean, prevEnd, t[i..]))
    decreases |t| - i
  {
    if i < |t| {
      var n := t[i];
      if prevEnd >= n.first && n.second < prevEnd {
        StepShrinks(t, i, clean, prevEnd);
      } else if prevEnd < n.first {
        StepAppends(t, i, clean, prevEnd);
      } else {
        StepKeeps(t, i, clean, prevEnd);
      }
      var (c, p) := MergeStep(clean, prevEnd, n);
      assert t[i..][1..] == t[i + 1..];
      MergeFromInv(t, i + 1, c, p);
    }
  }

  /**
   * Combining a start-sorted timeline of well-formed notes gives well-formed notes separated
   * by gaps, no more of them than there were inputs, and none when there were none. Every
   * input's start lies in some output note, and that output note ends no later than the input
   * does. Every output note starts at an input's start and ends at the end of an input whose
   * start it contains: a combined note runs from the earliest start to the earliest end among
   * the sightings it absorbed.
   */
  lemma MergeProperties(t: seq<Span>)
    requires SortedBy(t, Start) && AllWellFormed(t)
    ensures MergedUpTo(t, |t|, Merge(t))
    ensures Merge(t) == [] <==> t == []
  {
    if t != [] {
      assert WellFormed(t[0]);
      assert MergeStep([t[0]], t[0].second, t[0]) == ([t[0]], t[0].second);
      assert t[1..] == t[0..][1..];
      assert MergeInv(t, 1, [t[0]], t[0].second) by {
        assert Covers([t[0]][0], t[0].first);
        assert Covered([t[0]], t[0].first);
        assert [t[0]][0] == t[0];
        assert InputStart(t, 1, t[0].first) && EndOfCovered(t, 1, t[0]);
      }
      MergeFromInv(t, 1, [t[0]], t[0].second);
      assert Covered(Merge(t), t[0].first);
    }
  }

  lemma {:induction false} MergeFromGapped(s: seq<Span>, i: int)
    requires AllWellFormed(s) && Gapped(s) && 1 <= i <= |s|
    ensures MergeFrom(s[..i], s[i - 1].second, s[i..]) == s
    decreases |s| - i
  {
    if i == |s| {
      assert s[..i] == s;
    } else {
      assert s[i - 1].second < s[i].first;
      assert s[..i] + [s[i]] == s[..i + 1];
      assert MergeStep(s[..i], s[i - 1].second, s[i]) == (s[..i + 1], s[i].second);
      assert s[i..][1..] == s[i + 1..];
      MergeFromGapped(s, i + 1);
    }
  }

  /** Spans that are already separated by gaps are left as they are, so combining is
      idempotent on its own well-formed output. */
  lemma MergeGapped(s: seq<Span>)
    requires AllWellFormed(s) && Gapped(s)
    ensures Merge(s) == s
  {
    if s != [] {
      assert WellFormed(s[0]);
      assert MergeStep([s[0]], s[0].second, s[0]) == ([s[0]], s[0].second);
      assert s[..1] == [s[0]] && s[1..] == s[0..][1..];
      MergeFromGapped(s, 1);
    }
  }

  lemma MergeIdempotent(t: seq<Span>)
    requires SortedBy(t, Start) && AllWellFormed(t)
    ensures Merge(Merge(t)) == Merge(t)
  {
    MergeProperties(t);
    MergeGapped(Merge(t));
  }

  /** Placing keeps a note's length, so well-formed sightings give well-formed spans. */
  lemma {:induction false} RawTimelineWellFormed(key: seq<seq<Span>>, time: real, speed: real, height: real)
    requires forall f :: 0 <= f < |key| ==> AllWellFormed(key[f])
    ensures AllWellFormed(RawTimeline(key, time, speed, height))
  {
    if key != [] {
      RawTimelineWellFormed(key[1..], time + speed, speed, height);
      FrameSpansWellFormed(key[0], time, height);
    }
  }

  lemma {:induction false} FrameSpansWellFormed(frame: seq<Span>, time: real, height: real)
    requires AllWellFormed(frame)
    ensures AllWellFormed(FrameSpans(frame, time, height))
    ensures forall i :: 0 <= i < |frame| ==> Length(FrameSpans(frame, time, height)[i]) == Length(frame[i])
  {
    if frame != [] {
      FrameSpansWellFormed(frame[1..], time, height);
    }
  }

  /** `getKeyTimeline` on well-formed sightings: its result has the combining guarantees with
      respect to the start-sorted placed sightings. */
  lemma KeyTimelineProperties(key: seq<seq<Span>>, speed: real, height: real)
    requires forall f :: 0 <= f < |key| ==> AllWellFormed(key[f])
    ensures var sorted := SortBy(RawTimeline(key, 0.0, speed, height), Start);
      MergedUpTo(sorted, |sorted|, KeyTimelineOf(key, speed, height))
  {
    var raw := RawTimeline(key, 0.0, speed, height);
    RawTimelineWellFormed(key, 0.0, speed, height);
    SortBySpec(raw, Start);
    var sorted := SortBy(raw, Start);
    forall i | 0 <= i < |sorted| ensures WellFormed(sorted[i]) {
      assert sorted[i] in multiset(raw);
    }
    MergeProperties(sorted);
  }

  /** The key of the unit test of `getKeyTimeline`: two frames, 12 pixels apart, each showing
      the same two notes, and a third frame showing nothing. */
  lemma GetKeyTimelineExample()
    ensures KeyTimelineOf([[Span(0.0, 24.0), Span(56.0, 78.0)], [Span(12.0, 36.0), Span(68.0, 80.0)], []], 12.0, 100.0)
         == [Span(22.0, 44.0), Span(76.0, 100.0)]
  {
    var raw := [Span(76.0, 100.0), Span(22.0, 44.0), Span(76.0, 100.0), Span(32.0, 44.0)];
    var sorted := [Span(22.0, 44.0), Span(32.0, 44.0), Span(76.0, 100.0), Span(76.0, 100.0)];
    ExampleRaw();
    ExampleSorted();
    assert Merge(sorted) == [Span(22.0, 44.0), Span(76.0, 100.0)];
  }

  lemma ExampleRaw()
    ensures RawTimeline([[Span(0.0, 24.0), Span(56.0, 78.0)], [Span(12.0, 36.0), Span(68.0, 80.0)], []], 0.0, 12.0, 100.0)
         == [Span(76.0, 100.0), Span(22.0, 44.0), Span(76.0, 100.0), Span(32.0, 44.0)]
  {
    var key := [[Span(0.0, 24.0), Span(56.0, 78.0)], [Span(12.0, 36.0), Span(68.0, 80.0)], []];
    assert key[1..] == [[Span(12.0, 36.0), Span(68.0, 80.0)], []];
    assert key[1..][1..] == [[]];
    assert RawTimeline(key[1..][1..], 24.0, 12.0, 100.0) == [];
    assert FrameSpans(key[1], 12.0, 100.0) == [Span(76.0, 100.0), Span(32.0, 44.0)];
    assert FrameSpans(key[0], 0.0, 100.0) == [Span(76.0, 100.0), Span(22.0, 44.0)];
  }

  lemma ExampleSorted()
    ensures SortBy([Span(76.0, 100.0), Span(22.0, 44.0), Span(76.0, 100.0), Span(32.0, 44.0)], Start)
         == [Span(22.0, 44.0), Span(32.0, 44.0), Span(76.0, 100.0), Span(76.0, 100.0)]
  {
    var raw := [Span(76.0, 100.0), Span(22.0, 44.0), Span(76.0, 100.0), Span(32.0, 44.0)];
    assert SortBy(raw[..1], Start) == [raw[0]];
    assert SortBy(raw[..2], Start) == [raw[1], raw[0]] by {
      assert raw[..2] == raw[..1] + [raw[1]];
      SortByAppendOne(raw[..1], raw[1], Start);
    }
    assert SortBy(raw[..3], Start) == [raw[1], raw[0], raw[2]] by {
      assert raw[..3] == raw[..2] + [raw[2]];
      SortByAppendOne(raw[..2], raw[2], Start);
    }
    assert raw == raw[..3] + [raw[3]];
    SortByAppendOne(raw[..3], raw[3], Start);
  }

  /** Overlapping sightings are cut back to the earliest end rather than extended to the latest:
      `(0, 24)` absorbs `(12, 36)` and stays `(0, 24)`. */
  lemma MergeKeepsEarliestEnd()
    ensures Merge([Span(0.0, 24.0), Span(12.0, 36.0), Span(56.0, 78.0), Span(68.0, 80.0)])
         == [Span(0.0, 24.0), Span(56.0, 78.0)]
  {
  }
}

/**
 * The interval cross-correlation of Main.kt (`calculateCrossCorrelation`): the endpoints of
 * the notes of two frames, those of the first frame shifted by an offset, are swept in order
 * of position while a flag per frame records whether one of its notes is open; the length
 * over which both frames are open, divided by the mean total note length, is the score.
 */
module CrossCorrelation {
  import opened Spans
  import opened Sequences
  import opened Sorting

  /** An endpoint of a note: its position and whether it belongs to the first frame. */
  datatype Point = Point(pos: real, fromFirst: bool)

  /** The sort key of `points.sortBy { it.first }`. */
  function Pos(p: Point): real
  {
    p.pos
  }

  /** The two endpoints of every note of `frame`, shifted by `offset`, tagged `tag`. */
  function NotePoints(frame: seq<Span>, offset: real, tag: bool): (r: seq<Point>)
    ensures |r| == 2 * |frame|
  {
    if frame == [] then []
    else [Point(frame[0].first + offset, tag), Point(frame[0].second + offset, tag)]
         + NotePoints(frame[1..], offset, tag)
  }

  /** All endpoints in the order `calculateCrossCorrelation` adds them. */
  function CorrelationPoints(frame1: seq<Span>, frame2: seq<Span>, offset: int): seq<Point>
  {
    NotePoints(frame1, offset as real, true) + NotePoints(frame2, 0.0, false)
  }

  /** `frame.sumOf { it.second - it.first }`. */
  function TotalLength(frame: seq<Span>): real
  {
    if frame == [] then 0.0 else Length(frame[0]) + TotalLength(frame[1..])
  }

  /** The sweep from some point on: the length over which both frames are open. */
  function Sweep(pts: seq<Point>, open1: bool, open2: bool, last: real): real
  {
    if pts == [] then 0.0
    else
      var p := pts[0];
      (if open1 && open2 then p.pos - last else 0.0)
      + Sweep(pts[1..], if p.fromFirst then !open1 else open1, if p.fromFirst then open2 else !open2, p.pos)
  }

  /** `equalDistance` at the end of the sweep over the sorted endpoints. */
  function EqualDistance(frame1: seq<Span>, frame2: seq<Span>, offset: int): real
  {
    Sweep(SortBy(CorrelationPoints(frame1, frame2, offset), Pos), false, false, 0.0)
  }

  /** The mean of the two frames' total note lengths, the divisor of the score. */
  function PotentialOverlap(frame1: seq<Span>, frame2: seq<Span>): real
  {
    (TotalLength(frame1) + TotalLength(frame2)) / 2.0
  }

  function Correlation(frame1: seq<Span>, frame2: seq<Span>, offset: int): real
    requires PotentialOverlap(frame1, frame2) != 0.0
  {
    EqualDistance(frame1, frame2, offset) / PotentialOverlap(frame1, frame2)
  }

  /** `calculateCrossCorrelation`. */
  method CalculateCrossCorrelation(frame1: seq<Span>, frame2: seq<Span>, offset: int) returns (c: real)
    requires PotentialOverlap(frame1, frame2) != 0.0
    ensures c == Correlation(frame1, frame2, offset)
  {
    var points: seq<Point> := [];
    var i := 0;
    while i < |frame1|
      invariant 0 <= i <= |frame1|
      invariant points + NotePoints(frame1[i..], offset as real, true) == NotePoints(frame1, offset as real, true)
    {
      assert frame1[i..][1..] == frame1[i + 1..];
      points := points + [Point(frame1[i].first + offset as real, true)];
      points := points + [Point(frame1[i].second + offset as real, true)];
      i := i + 1;
    }
    assert frame1[i..] == [];
    i := 0;
    while i < |frame2|
      invariant 0 <= i <= |frame2|
      invariant points + NotePoints(frame2[i..], 0.0, false) == CorrelationPoints(frame1, frame2, offset)
    {
      assert frame2[i..][1..] == frame2[i + 1..];
      points := points + [Point(frame2[i].first, false)];
      points := points + [Point(frame2[i].second, false)];
      i := i + 1;
    }
    assert frame2[i..] == [];
    assert points == CorrelationPoints(frame1, frame2, offset);
    points := SortBy(points, Pos);
    var equalDistance := SweepPoints(points);
    var potentialOverlap := (TotalLength(frame1) + TotalLength(frame2)) / 2.0;
    c := equalDistance / potentialOverlap;
  }

  /** The sweep loop of `calculateCrossCorrelation` over the sorted endpoints. */
  method SweepPoints(points: seq<Point>) returns (equalDistance: real)
    ensures equalDistance == Sweep(points, false, false, 0.0)
  {
    equalDistance := 0.0;
    var frame1Open, frame2Open := false, false;
    var lastPoint := 0.0;
    var i := 0;
    while i < |points|
      invariant 0 <= i <= |points|
      invariant equalDistance + Sweep(points[i..], frame1Open, frame2Open, lastPoint)
             == Sweep(points, false, false, 0.0)
    {
      var point := points[i];
      assert points[i..][1..] == points[i + 1..];
      if frame1Open && frame2Open {
        equalDistance := equalDistance + (point.pos - lastPoint);
      }
      if point.fromFirst {
        frame1Open := !frame1Open;
      } else {
        frame2Open := !frame2Open;
      }
      lastPoint := point.pos;
      i := i + 1;
    }
  }

  // ---------------------------------------------------------------------------------------
  // The score lies between 0 and 1.

  /** Selects the endpoints of one frame. */
  function FromFrame(tag: bool): Point -> bool
  {
    (p: Point) => p.fromFirst == tag
  }

  /** The length over which frame `tag` is open during the sweep. */
  function Open(pts: seq<Point>, tag: bool, open: bool, last: real): real
  {
    if pts == [] then 0.0
    else
      var p := pts[0];
      (if open then p.pos - last else 0.0)
      + Open(pts[1..], tag, if p.fromFirst == tag then !open else open, p.pos)
  }

  /** The alternating sum `-q0 + q1 - q2 + ...`; over sorted endpoints it is their covered length. */
  function Alt(q: seq<real>): real
  {
    if q == [] then 0.0 else -q[0] - Alt(q[1..])
  }

  /** The endpoint positions of `frame`, shifted by `offset`. */
  function Ends(frame: seq<Span>, offset: real): (r: seq<real>)
    ensures |r| == 2 * |frame|
  {
    if frame == [] then [] else [frame[0].first + offset, frame[0].second + offset] + Ends(frame[1..], offset)
  }

  /** Both frames are open no longer than either one is. */
  lemma {:induction false} SweepBelowOpen(pts: seq<Point>, open1: bool, open2: bool, last: real)
    requires SortedBy(pts, Pos)
    requires forall i :: 0 <= i < |pts| ==> last <= pts[i].pos
    ensures 0.0 <= Sweep(pts, open1, open2, last)
    ensures Sweep(pts, open1, open2, last) <= Open(pts, true, open1, last)
    ensures Sweep(pts, open1, open2, last) <= Open(pts, false, open2, last)
  {
    if pts != [] {
      var p := pts[0];
      SortedTail(pts, Pos);
      SweepBelowOpen(pts[1..], if p.fromFirst then !open1 else open1, if p.fromFirst then open2 else !open2, p.pos);
    }
  }

  /** The open time of a frame whose endpoints `pts` holds, with an even count of them still
      to come exactly when the frame is closed, is the alternating sum of those endpoints. */
  lemma {:induction false} OpenAlt(pts: seq<Point>, tag: bool, open: bool, last: real)
    requires (|Filter(pts, FromFrame(tag))| % 2 == 1) == open
    ensures Open(pts, tag, open, last)
         == if open then -last - Alt(Map(Filter(pts, FromFrame(tag)), Pos)) else Alt(Map(Filter(pts, FromFrame(tag)), Pos))
  {
    if pts != [] {
      var p := pts[0];
      FilterCons(p, pts[1..], FromFrame(tag));
      assert pts == [p] + pts[1..];
      var f' := Filter(pts[1..], FromFrame(tag));
      var m' := Map(f', Pos);
      OpenAlt(pts[1..], tag, if p.fromFirst == tag then !open else open, p.pos);
      if p.fromFirst == tag {
        assert Filter(pts, FromFrame(tag)) == [p] + f';
        var m := Map([p] + f', Pos);
        assert m[0] == p.pos && m[1..] == m';
        assert Alt(m) == -p.pos - Alt(m');
      } else {
        assert Filter(pts, FromFrame(tag)) == f';
      }
    }
  }

  lemma {:induction false} FilterNotePoints(frame: seq<Span>, offset: real, tag: bool, t: bool)
    ensures Filter(NotePoints(frame, offset, tag), FromFrame(t)) == if tag == t then NotePoints(frame, offset, tag) else []
  {
    if frame != [] {
      var a, b := Point(frame[0].first + offset, tag), Point(frame[0].second + offset, tag);
      var rest := NotePoints(frame[1..], offset, tag);
      FilterNotePoints(frame[1..], offset, tag, t);
      assert NotePoints(frame, offset, tag) == [a] + ([b] + rest);
      FilterCons(a, [b] + rest, FromFrame(t));
      FilterCons(b, rest, FromFrame(t));
    }
  }

  lemma {:induction false} MapNotePoints(frame: seq<Span>, offset: real, tag: bool)
    ensures Map(NotePoints(frame, offset, tag), Pos) == Ends(frame, offset)
  {
    if frame != [] {
      var a, b := Point(frame[0].first + offset, tag), Point(frame[0].second + offset, tag);
      MapNotePoints(frame[1..], offset, tag);
      MapAppend([a, b], NotePoints(frame[1..], offset, tag), Pos);
    }
  }

  /** The endpoints of the first frame, as the sweep meets them, are its sorted endpoints. */
  lemma FirstFrameEndpoints(frame1: seq<Span>, frame2: seq<Span>, offset: int)
    ensures Map(Filter(SortBy(CorrelationPoints(frame1, frame2, offset), Pos), FromFrame(true)), Pos)
         == SortBy(Ends(frame1, offset as real), Id)
  {
    var p1, p2 := NotePoints(frame1, offset as real, true), NotePoints(frame2, 0.0, false);
    FilterSortBy(p1 + p2, Pos, FromFrame(true));
    FilterAppend(p1, p2, FromFrame(true));
    FilterNotePoints(frame1, offset as real, true, true);
    FilterNotePoints(frame2, 0.0, false, true);
    assert Filter(p1 + p2, FromFrame(true)) == p1 + [] == p1;
    MapSortBy(p1, Pos);
    MapNotePoints(frame1, offset as real, true);
  }

  /** The same for the second frame. */
  lemma SecondFrameEndpoints(frame1: seq<Span>, frame2: seq<Span>, offset: int)
    ensures Map(Filter(SortBy(CorrelationPoints(frame1, frame2, offset), Pos), FromFrame(false)), Pos)
         == SortBy(Ends(frame2, 0.0), Id)
  {
    var p1, p2 := NotePoints(frame1, offset as real, true), NotePoints(frame2, 0.0, false);
    FilterSortBy(p1 + p2, Pos, FromFrame(false));
    FilterAppend(p1, p2, FromFrame(false));
    FilterNotePoints(frame1, offset as real, true, false);
    FilterNotePoints(frame2, 0.0, false, false);
    assert Filter(p1 + p2, FromFrame(false)) == [] + p2 == p2;
    MapSortBy(p2, Pos);
    MapNotePoints(frame2, 0.0, false);
  }

  /** Inserting `x` into a sorted sequence whose elements are at least `lo`. */
  lemma {:induction false} AltInsOne(q: seq<real>, x: real, lo: real)
    requires SortedBy(q, Id)
    requires forall i :: 0 <= i < |q| ==> lo <= q[i]
    requires lo <= x
    ensures -x <= Alt(q) + Alt(InsBy(q, x, Id)) <= x - 2.0 * lo
  {
    if q != [] && x >= q[0] {
      SortedTail(q, Id);
      AltInsOne(q[1..], x, q[0]);
      assert InsBy(q, x, Id) == [q[0]] + InsBy(q[1..], x, Id);
    }
  }

  /** Inserting the two endpoints `a <= b` of one note changes the alternating sum by at most `b - a`. */
  lemma {:induction false} AltInsPair(q: seq<real>, a: real, b: real)
    requires SortedBy(q, Id)
    requires a <= b
    ensures a - b <= Alt(InsBy(InsBy(q, a, Id), b, Id)) - Alt(q) <= b - a
  {
    if q == [] {
      assert InsBy([a], b, Id) == [a] + InsBy([], b, Id);
    } else if a < q[0] {
      SortedTail(q, Id);
      assert InsBy([a] + q, b, Id) == [a] + InsBy(q, b, Id);
      AltInsOne(q, b, a);
    } else {
      SortedTail(q, Id);
      var r := InsBy(q[1..], a, Id);
      assert InsBy(q, a, Id) == [q[0]] + r;
      InsByFront(q[0], r, b, Id);
      AltInsPair(q[1..], a, b);
    }
  }

  lemma {:induction false} EndsSnoc(frame: seq<Span>, note: Span, offset: real)
    ensures Ends(frame + [note], offset) == Ends(frame, offset) + [note.first + offset, note.second + offset]
  {
    if frame == [] {
      assert [note][1..] == [];
    } else {
      assert (frame + [note])[1..] == frame[1..] + [note];
      EndsSnoc(frame[1..], note, offset);
    }
  }

  lemma {:induction false} TotalLengthSnoc(frame: seq<Span>, note: Span)
    ensures TotalLength(frame + [note]) == TotalLength(frame) + Length(note)
  {
    if frame == [] {
      assert [note][1..] == [];
    } else {
      assert (frame + [note])[1..] == frame[1..] + [note];
      TotalLengthSnoc(frame[1..], note);
    }
  }

  lemma {:induction false} TotalLengthNonNegative(frame: seq<Span>)
    requires AllWellFormed(frame)
    ensures TotalLength(frame) >= 0.0
  {
    if frame != [] {
      TotalLengthNonNegative(frame[1..]);
    }
  }

  lemma SortByPair(e: seq<real>, a: real, b: real)
    ensures SortBy(e + [a, b], Id) == InsBy(InsBy(SortBy(e, Id), a, Id), b, Id)
  {
    assert e + [a, b] == (e + [a]) + [b];
    SortByAppendOne(e + [a], b, Id);
    SortByAppendOne(e, a, Id);
  }

  /** One more note: its two endpoints are inserted into the sorted endpoints, and its length
      is added to the total. */
  lemma SortedEndsSnoc(init: seq<Span>, note: Span, offset: real)
    ensures SortBy(Ends(init + [note], offset), Id)
         == InsBy(InsBy(SortBy(Ends(init, offset), Id), note.first + offset, Id), note.second + offset, Id)
    ensures TotalLength(init + [note]) == TotalLength(init) + (note.second - note.first)
  {
    EndsSnoc(init, note, offset);
    TotalLengthSnoc(init, note);
    SortByPair(Ends(init, offset), note.first + offset, note.second + offset);
  }

  /** The sorted endpoints of well-formed notes alternate over no more than their total length. */
  lemma {:induction false} AltSortedEnds(frame: seq<Span>, offset: real)
    requires AllWellFormed(frame)
    ensures Alt(SortBy(Ends(frame, offset), Id)) <= TotalLength(frame)
  {
    if frame != [] {
      var init, note := frame[..|frame| - 1], frame[|frame| - 1];
      assert frame == init + [note];
      assert WellFormed(note) && AllWellFormed(init);
      AltSortedEnds(init, offset);
      SortedEndsSnoc(init, note, offset);
      SortBySpec(Ends(init, offset), Id);
      AltInsPairNote(SortBy(Ends(init, offset), Id), note, offset);
    }
  }

  /** `AltInsPair` for the endpoints of `note` moved by `offset`. */
  lemma AltInsPairNote(q: seq<real>, note: Span, offset: real)
    requires SortedBy(q, Id) && WellFormed(note)
    ensures Alt(InsBy(InsBy(q, note.first + offset, Id), note.second + offset, Id)) <= Alt(q) + (note.second - note.first)
  {
    AltInsPair(q, note.first + offset, note.second + offset);
  }

  /** Over the whole sweep, frame `tag` is open for the alternating sum of its sorted endpoints. */
  lemma OpenTotal(frame1: seq<Span>, frame2: seq<Span>, offset: int, tag: bool)
    requires AllWellFormed(frame1) && AllWellFormed(frame2)
    ensures Open(SortBy(CorrelationPoints(frame1, frame2, offset), Pos), tag, false, 0.0)
         <= if tag then TotalLength(frame1) else TotalLength(frame2)
  {
    var pts := SortBy(CorrelationPoints(frame1, frame2, offset), Pos);
    if tag {
      FirstFrameEndpoints(frame1, frame2, offset);
      EndsSorted(frame1, offset as real);
      OpenFromAlt(pts, true, SortBy(Ends(frame1, offset as real), Id), TotalLength(frame1));
    } else {
      SecondFrameEndpoints(frame1, frame2, offset);
      EndsSorted(frame2, 0.0);
      OpenFromAlt(pts, false, SortBy(Ends(frame2, 0.0), Id), TotalLength(frame2));
    }
  }

  /** The sorted endpoints of a frame come in pairs and alternate over no more than its total
      length. */
  lemma EndsSorted(frame: seq<Span>, offset: real)
    requires AllWellFormed(frame)
    ensures |SortBy(Ends(frame, offset), Id)| % 2 == 0
    ensures Alt(SortBy(Ends(frame, offset), Id)) <= TotalLength(frame)
  {
    AltSortedEnds(frame, offset);
  }

  /** A frame whose endpoints come in pairs is open for their alternating sum. */
  lemma OpenFromAlt(pts: seq<Point>, tag: bool, q: seq<real>, total: real)
    requires Map(Filter(pts, FromFrame(tag)), Pos) == q
    requires |q| % 2 == 0 && Alt(q) <= total
    ensures Open(pts, tag, false, 0.0) <= total
  {
    OpenAlt(pts, tag, false, 0.0);
  }

  /** The overlap is non-negative and no longer than either frame's total note length. */
  lemma EqualDistanceBounds(frame1: seq<Span>, frame2: seq<Span>, offset: int)
    requires AllWellFormed(frame1) && AllWellFormed(frame2)
    ensures 0.0 <= EqualDistance(frame1, frame2, offset)
    ensures EqualDistance(frame1, frame2, offset) <= TotalLength(frame1)
    ensures EqualDistance(frame1, frame2, offset) <= TotalLength(frame2)
  {
    var pts := SortBy(CorrelationPoints(frame1, frame2, offset), Pos);
    SortBySpec(CorrelationPoints(frame1, frame2, offset), Pos);
    OpenTotal(frame1, frame2, offset, true);
    OpenTotal(frame1, frame2, offset, false);
    if pts != [] {
      var p := pts[0];
      SortedTail(pts, Pos);
      SweepBelowOpen(pts[1..], p.fromFirst, !p.fromFirst, p.pos);
    }
  }

  /** `calculateCrossCorrelation` scores well-formed frames between 0 and 1. */
  lemma CorrelationBounds(frame1: seq<Span>, frame2: seq<Span>, offset: int)
    requires AllWellFormed(frame1) && AllWellFormed(frame2)
    requires PotentialOverlap(frame1, frame2) != 0.0
    ensures 0.0 <= Correlation(frame1, frame2, offset) <= 1.0
  {
    EqualDistanceBounds(frame1, frame2, offset);
    TotalLengthNonNegative(frame1);
    TotalLengthNonNegative(frame2);
    var eq, pot := EqualDistance(frame1, frame2, offset), PotentialOverlap(frame1, frame2);
    assert 0.0 <= eq <= pot && 0.0 < pot;
    RatioBounds(eq, pot);
  }

  lemma RatioBounds(x: real, y: real)
    requires 0.0 <= x <= y && 0.0 < y
    ensures 0.0 <= x / y <= 1.0
  {
    var r := x / y;
    assert r * y == x;
  }

  // ---------------------------------------------------------------------------------------
  // A frame matched against itself, shifted by the offset, scores exactly 1.

  /** `frame` moved down by `offset`. */
  function Shift(frame: seq<Span>, offset: real): (r: seq<Span>)
    ensures |r| == |frame|
  {
    if frame == [] then [] else [Span(frame[0].first + offset, frame[0].second + offset)] + Shift(frame[1..], offset)
  }

  /** No two notes of `frame` touch or overlap. */
  predicate Disjoint(frame: seq<Span>)
  {
    forall i, j :: 0 <= i < |frame| && 0 <= j < |frame| && i != j ==>
      frame[i].second < frame[j].first || frame[j].second < frame[i].first
  }

  /** Selects the endpoints of frame `tag` at or below position `v`. */
  function AtOrBelow(tag: bool, v: real): Point -> bool
  {
    (p: Point) => p.fromFirst == tag && p.pos <= v
  }

  /** Below every position, the two frames have the same number of endpoints. */
  ghost predicate Balanced(pts: seq<Point>)
  {
    forall v :: Count(pts, AtOrBelow(true, v)) == Count(pts, AtOrBelow(false, v))
  }

  lemma {:induction false} FilterSame<T>(s: seq<T>, p: T -> bool, q: T -> bool)
    requires forall i :: 0 <= i < |s| ==> p(s[i]) == q(s[i])
    ensures Filter(s, p) == Filter(s, q)
  {
    if s != [] {
      FilterSame(s[1..], p, q);
    }
  }

  lemma {:induction false} FilterNone<T>(s: seq<T>, p: T -> bool)
    requires forall i :: 0 <= i < |s| ==> !p(s[i])
    ensures Filter(s, p) == []
  {
    if s != [] {
      FilterNone(s[1..], p);
    }
  }

  /** Where the sweep moves on to a larger position, both frames have passed the same number
      of endpoints. */
  lemma ParityAtGap(pts: seq<Point>, i: int)
    requires SortedBy(pts, Pos) && Balanced(pts)
    requires 0 < i < |pts| && pts[i - 1].pos < pts[i].pos
    ensures Count(pts[..i], FromFrame(true)) == Count(pts[..i], FromFrame(false))
  {
    var v := pts[i - 1].pos;
    assert pts == pts[..i] + pts[i..];
    forall t: bool ensures Count(pts, AtOrBelow(t, v)) == Count(pts[..i], FromFrame(t)) {
      FilterAppend(pts[..i], pts[i..], AtOrBelow(t, v));
      FilterSame(pts[..i], AtOrBelow(t, v), FromFrame(t));
      FilterNone(pts[i..], AtOrBelow(t, v));
    }
  }

  /** Taking one more endpoint changes the parity of its own frame's count only. */
  lemma CountSnoc(pts: seq<Point>, i: int, tag: bool)
    requires 0 <= i < |pts|
    ensures Count(pts[..i + 1], FromFrame(tag)) == Count(pts[..i], FromFrame(tag)) + (if pts[i].fromFirst == tag then 1 else 0)
  {
    assert pts[..i + 1] == pts[..i] + [pts[i]];
    FilterAppend(pts[..i], [pts[i]], FromFrame(tag));
    FilterCons(pts[i], [], FromFrame(tag));
  }

  /** On balanced endpoints the first frame is never open alone over a positive length, so
      the overlap equals the first frame's open time. */
  lemma {:induction false} SweepMatchesOpen(pts: seq<Point>, i: int, open1: bool, open2: bool, last: real)
    requires SortedBy(pts, Pos) && Balanced(pts)
    requires 0 <= i <= |pts|
    requires open1 == (Count(pts[..i], FromFrame(true)) % 2 == 1)
    requires open2 == (Count(pts[..i], FromFrame(false)) % 2 == 1)
    requires 0 < i ==> last == pts[i - 1].pos
    ensures Sweep(pts[i..], open1, open2, last) == Open(pts[i..], true, open1, last)
    decreases |pts| - i
  {
    if i < |pts| {
      var p := pts[i];
      assert pts[i..][0] == p && pts[i..][1..] == pts[i + 1..];
      CountSnoc(pts, i, true);
      CountSnoc(pts, i, false);
      SweepMatchesOpen(pts, i + 1, if p.fromFirst then !open1 else open1, if p.fromFirst then open2 else !open2, p.pos);
      if open1 && !open2 && 0 < i {
        assert pts[i - 1].pos <= p.pos;
        if pts[i - 1].pos < p.pos {
          ParityAtGap(pts, i);
          assert false;
        }
      }
    }
  }

  /** The number of endpoints of `frame`, shifted by `offset`, at or below `v`. */
  function EndsAtOrBelow(frame: seq<Span>, offset: real, v: real): nat
  {
    if frame == [] then 0
    else (if frame[0].first + offset <= v then 1 else 0) + (if frame[0].second + offset <= v then 1 else 0)
         + EndsAtOrBelow(frame[1..], offset, v)
  }

  lemma {:induction false} NotePointsCount(frame: seq<Span>, offset: real, tag: bool, v: real)
    ensures Count(NotePoints(frame, offset, tag), AtOrBelow(tag, v)) == EndsAtOrBelow(frame, offset, v)
  {
    if frame != [] {
      var a, b := Point(frame[0].first + offset, tag), Point(frame[0].second + offset, tag);
      var rest := NotePoints(frame[1..], offset, tag);
      NotePointsCount(frame[1..], offset, tag, v);
      assert NotePoints(frame, offset, tag) == [a] + ([b] + rest);
      FilterCons(a, [b] + rest, AtOrBelow(tag, v));
      FilterCons(b, rest, AtOrBelow(tag, v));
    }
  }

  lemma {:induction false} ShiftEndsAtOrBelow(frame: seq<Span>, offset: real, v: real)
    ensures EndsAtOrBelow(Shift(frame, offset), 0.0, v) == EndsAtOrBelow(frame, offset, v)
  {
    if frame != [] {
      ShiftEndsAtOrBelow(frame[1..], offset, v);
      assert Shift(frame, offset)[1..] == Shift(frame[1..], offset);
    }
  }

  lemma {:induction false} OtherFrameCount(frame: seq<Span>, offset: real, tag: bool, v: real)
    ensures Count(NotePoints(frame, offset, tag), AtOrBelow(!tag, v)) == 0
  {
    if frame != [] {
      var a, b := Point(frame[0].first + offset, tag), Point(frame[0].second + offset, tag);
      var rest := NotePoints(frame[1..], offset, tag);
      OtherFrameCount(frame[1..], offset, tag, v);
      assert NotePoints(frame, offset, tag) == [a] + ([b] + rest);
      FilterCons(a, [b] + rest, AtOrBelow(!tag, v));
      FilterCons(b, rest, AtOrBelow(!tag, v));
    }
  }

  /** The sorted endpoints of a frame and its shifted copy are balanced. */
  lemma ShiftedBalanced(frame: seq<Span>, offset: int)
    ensures Balanced(SortBy(CorrelationPoints(frame, Shift(frame, offset as real), offset), Pos))
  {
    var off := offset as real;
    var p1, p2 := NotePoints(frame, off, true), NotePoints(Shift(frame, off), 0.0, false);
    forall v ensures Count(SortBy(p1 + p2, Pos), AtOrBelow(true, v)) == Count(SortBy(p1 + p2, Pos), AtOrBelow(false, v)) {
      CountSortBy(p1 + p2, Pos, AtOrBelow(true, v));
      CountSortBy(p1 + p2, Pos, AtOrBelow(false, v));
      FilterAppend(p1, p2, AtOrBelow(true, v));
      FilterAppend(p1, p2, AtOrBelow(false, v));
      NotePointsCount(frame, off, true, v);
      NotePointsCount(Shift(frame, off), 0.0, false, v);
      ShiftEndsAtOrBelow(frame, off, v);
      OtherFrameCount(frame, off, true, v);
      OtherFrameCount(Shift(frame, off), 0.0, false, v);
    }
  }

  /** Selects the positions strictly below `a`. */
  function Below(a: real): real -> bool
  {
    x => x < a
  }

  /** In a sorted sequence starting at `a` or above, nothing lies below `a`. */
  lemma NoneBelow(q: seq<real>, a: real)
    requires SortedBy(q, Id) && q != [] && a <= q[0]
    ensures Count(q, Below(a)) == 0
  {
    SortedTail(q, Id);
    FilterNone(q, Below(a));
  }

  /** An odd number of elements below `a` means the first one is below `a`. */
  lemma FirstBelow(q: seq<real>, a: real)
    requires SortedBy(q, Id)
    requires Count(q, Below(a)) % 2 == 1
    ensures q != [] && q[0] < a
  {
    if q != [] && a <= q[0] {
      NoneBelow(q, a);
    }
  }

  /** The two insertions pass two leading elements below `a`. */
  lemma InsPairPastTwo(x: real, y: real, rest: seq<real>, a: real, b: real)
    requires x <= y <= a <= b
    ensures InsBy(InsBy([x, y] + rest, a, Id), b, Id) == [x, y] + InsBy(InsBy(rest, a, Id), b, Id)
  {
    var r := InsBy(rest, a, Id);
    InsByFront(y, rest, a, Id);
    assert [y] + rest == ([x, y] + rest)[1..];
    InsByFront(x, [y] + rest, a, Id);
    assert [x, y] + rest == [x] + ([y] + rest);
    InsByFront(x, [y] + r, b, Id);
    InsByFront(y, r, b, Id);
    assert [x] + ([y] + r) == [x, y] + r;
    assert [x] + ([y] + InsBy(r, b, Id)) == [x, y] + InsBy(r, b, Id);
  }

  lemma AltTwo(x: real, y: real, rest: seq<real>)
    ensures Alt([x, y] + rest) == y - x + Alt(rest)
  {
    assert ([x, y] + rest)[1..] == [y] + rest;
    assert ([y] + rest)[1..] == rest;
  }

  /** Inserting the endpoints of a note that no other endpoint falls within, with an even
      number of endpoints before it, adds exactly its length to the alternating sum. */
  lemma {:induction false} AltInsAvoiding(q: seq<real>, a: real, b: real)
    requires SortedBy(q, Id) && a <= b
    requires forall k :: 0 <= k < |q| ==> q[k] < a || b < q[k]
    requires Count(q, Below(a)) % 2 == 0
    ensures Alt(InsBy(InsBy(q, a, Id), b, Id)) == Alt(q) + (b - a)
    decreases |q|
  {
    if q == [] {
      assert InsBy([a], b, Id) == [a] + InsBy([], b, Id);
    } else if b < q[0] {
      assert InsBy([a] + q, b, Id) == [a] + InsBy(q, b, Id);
    } else {
      AvoidingPair(q, a, b);
      var rest := q[2..];
      AltInsAvoiding(rest, a, b);
      InsPairPastTwo(q[0], q[1], rest, a, b);
      AltTwo(q[0], q[1], rest);
      AltTwo(q[0], q[1], InsBy(InsBy(rest, a, Id), b, Id));
    }
  }

  /** Endpoints clear of [a, b], an even number of them below `a`, and one not above `b`: the
      first two lie below `a`, and the rest are clear of [a, b] in the same way. */
  lemma AvoidingPair(q: seq<real>, a: real, b: real)
    requires SortedBy(q, Id) && a <= b
    requires forall k :: 0 <= k < |q| ==> q[k] < a || b < q[k]
    requires Count(q, Below(a)) % 2 == 0
    requires q != [] && q[0] <= b
    ensures |q| >= 2 && q[0] <= q[1] < a && q == [q[0], q[1]] + q[2..]
    ensures SortedBy(q[2..], Id)
    ensures forall k :: 0 <= k < |q[2..]| ==> q[2..][k] < a || b < q[2..][k]
    ensures Count(q[2..], Below(a)) % 2 == 0
  {
    SortedTail(q, Id);
    var tail := q[1..];
    FilterCons(q[0], tail, Below(a));
    assert q == [q[0]] + tail;
    FirstBelow(tail, a);
    SortedTail(tail, Id);
    var rest := tail[1..];
    FilterCons(tail[0], rest, Below(a));
    assert q == [q[0], tail[0]] + rest;
    assert rest == q[2..];
  }

  /** The endpoints of notes that lie clear of `note`: none within it, an even number below it. */
  lemma EndsAvoid(frame: seq<Span>, note: Span, offset: real)
    requires AllWellFormed(frame) && WellFormed(note)
    requires forall i :: 0 <= i < |frame| ==> frame[i].second < note.first || note.second < frame[i].first
    ensures forall k :: 0 <= k < |Ends(frame, offset)| ==>
      Ends(frame, offset)[k] < note.first + offset || note.second + offset < Ends(frame, offset)[k]
    ensures Count(Ends(frame, offset), Below(note.first + offset)) % 2 == 0
  {
    EndsClear(frame, note, offset);
    EndsEvenBelow(frame, note, offset);
  }

  lemma {:induction false} EndsClear(frame: seq<Span>, note: Span, offset: real)
    requires forall i :: 0 <= i < |frame| ==> frame[i].second < note.first || note.second < frame[i].first
    requires AllWellFormed(frame)
    ensures forall k :: 0 <= k < |Ends(frame, offset)| ==>
      Ends(frame, offset)[k] < note.first + offset || note.second + offset < Ends(frame, offset)[k]
  {
    if frame != [] {
      var x, y := frame[0].first + offset, frame[0].second + offset;
      var rest := Ends(frame[1..], offset);
      EndsClear(frame[1..], note, offset);
      assert WellFormed(frame[0]);
      assert Ends(frame, offset) == [x, y] + rest;
    }
  }

  lemma {:induction false} EndsEvenBelow(frame: seq<Span>, note: Span, offset: real)
    requires AllWellFormed(frame) && WellFormed(note)
    requires forall i :: 0 <= i < |frame| ==> frame[i].second < note.first || note.second < frame[i].first
    ensures Count(Ends(frame, offset), Below(note.first + offset)) % 2 == 0
  {
    if frame != [] {
      var x, y := frame[0].first + offset, frame[0].second + offset;
      var rest := Ends(frame[1..], offset);
      EndsEvenBelow(frame[1..], note, offset);
      assert WellFormed(frame[0]);
      assert Ends(frame, offset) == [x] + ([y] + rest);
      FilterCons(x, [y] + rest, Below(note.first + offset));
      FilterCons(y, rest, Below(note.first + offset));
      if frame[0].second < note.first {
        assert x < note.first + offset && y < note.first + offset;
      } else {
        assert note.first + offset <= x <= y;
      }
    }
  }

  /** The sorted endpoints of the other notes avoid the last note. */
  lemma SortedEndsAvoid(init: seq<Span>, note: Span, offset: real)
    requires AllWellFormed(init) && WellFormed(note)
    requires forall i :: 0 <= i < |init| ==> init[i].second < note.first || note.second < init[i].first
    ensures forall k :: 0 <= k < |SortBy(Ends(init, offset), Id)| ==>
      SortBy(Ends(init, offset), Id)[k] < note.first + offset || note.second + offset < SortBy(Ends(init, offset), Id)[k]
    ensures Count(SortBy(Ends(init, offset), Id), Below(note.first + offset)) % 2 == 0
    ensures SortedBy(SortBy(Ends(init, offset), Id), Id)
  {
    var e := Ends(init, offset);
    var q := SortBy(e, Id);
    SortBySpec(e, Id);
    EndsAvoid(init, note, offset);
    CountSortBy(e, Id, Below(note.first + offset));
    PermutedAvoid(e, q, note.first + offset, note.second + offset);
  }

  /** A permutation of endpoints clear of [a, b] is clear of it too. */
  lemma PermutedAvoid(e: seq<real>, q: seq<real>, a: real, b: real)
    requires multiset(q) == multiset(e)
    requires forall k :: 0 <= k < |e| ==> e[k] < a || b < e[k]
    ensures forall k :: 0 <= k < |q| ==> q[k] < a || b < q[k]
  {
    forall k | 0 <= k < |q| ensures q[k] < a || b < q[k] {
      assert q[k] in multiset(e);
    }
  }

  /** Removing the last note of a disjoint frame leaves notes clear of it. */
  lemma DisjointSnoc(frame: seq<Span>)
    requires AllWellFormed(frame) && Disjoint(frame) && frame != []
    ensures AllWellFormed(frame[..|frame| - 1]) && Disjoint(frame[..|frame| - 1])
    ensures WellFormed(frame[|frame| - 1])
    ensures forall i :: 0 <= i < |frame| - 1 ==>
      frame[i].second < frame[|frame| - 1].first || frame[|frame| - 1].second < frame[i].first
  {
    var init := frame[..|frame| - 1];
    assert forall i :: 0 <= i < |init| ==> init[i] == frame[i];
  }

  /** Adding a note clear of all others adds its length to the alternating sum. */
  lemma AltSortedEndsSnoc(init: seq<Span>, note: Span, offset: real)
    requires AllWellFormed(init) && WellFormed(note)
    requires forall i :: 0 <= i < |init| ==> init[i].second < note.first || note.second < init[i].first
    requires Alt(SortBy(Ends(init, offset), Id)) == TotalLength(init)
    ensures Alt(SortBy(Ends(init + [note], offset), Id)) == TotalLength(init + [note])
  {
    SortedEndsSnoc(init, note, offset);
    AltInsClear(init, note, offset);
  }

  lemma AltInsClear(init: seq<Span>, note: Span, offset: real)
    requires AllWellFormed(init) && WellFormed(note)
    requires forall i :: 0 <= i < |init| ==> init[i].second < note.first || note.second < init[i].first
    ensures var q := SortBy(Ends(init, offset), Id);
      Alt(InsBy(InsBy(q, note.first + offset, Id), note.second + offset, Id)) == Alt(q) + (note.second - note.first)
  {
    SortedEndsAvoid(init, note, offset);
    AltInsNote(SortBy(Ends(init, offset), Id), note, offset);
  }

  /** `AltInsAvoiding` for the endpoints of `note` moved by `offset`. */
  lemma AltInsNote(q: seq<real>, note: Span, offset: real)
    requires SortedBy(q, Id) && WellFormed(note)
    requires forall k :: 0 <= k < |q| ==> q[k] < note.first + offset || note.second + offset < q[k]
    requires Count(q, Below(note.first + offset)) % 2 == 0
    ensures Alt(InsBy(InsBy(q, note.first + offset, Id), note.second + offset, Id)) == Alt(q) + (note.second - note.first)
  {
    AltInsAvoiding(q, note.first + offset, note.second + offset);
  }

  /** For disjoint notes the alternating sum of the sorted endpoints is the total length. */
  lemma {:induction false} AltSortedEndsExact(frame: seq<Span>, offset: real)
    requires AllWellFormed(frame) && Disjoint(frame)
    ensures Alt(SortBy(Ends(frame, offset), Id)) == TotalLength(frame)
  {
    if frame != [] {
      var init, note := frame[..|frame| - 1], frame[|frame| - 1];
      DisjointSnoc(frame);
      AltSortedEndsExact(init, offset);
      AltSortedEndsSnoc(init, note, offset);
      assert frame == init + [note];
    }
  }

  lemma {:induction false} ShiftLength(frame: seq<Span>, offset: real)
    ensures TotalLength(Shift(frame, offset)) == TotalLength(frame)
  {
    if frame != [] {
      ShiftLength(frame[1..], offset);
      assert Shift(frame, offset)[1..] == Shift(frame[1..], offset);
    }
  }

  /** Against its shifted copy, the overlap of a frame equals its first frame's open time. */
  lemma ShiftedOverlap(frame: seq<Span>, offset: int)
    ensures EqualDistance(frame, Shift(frame, offset as real), offset)
         == Open(SortBy(CorrelationPoints(frame, Shift(frame, offset as real), offset), Pos), true, false, 0.0)
  {
    var pts := SortBy(CorrelationPoints(frame, Shift(frame, offset as real), offset), Pos);
    SortBySpec(CorrelationPoints(frame, Shift(frame, offset as real), offset), Pos);
    ShiftedBalanced(frame, offset);
    assert pts[..0] == [] && pts[0..] == pts;
    SweepMatchesOpen(pts, 0, false, false, 0.0);
  }

  /** For disjoint notes the first frame is open for exactly its total length. */
  lemma FirstOpenExact(frame1: seq<Span>, frame2: seq<Span>, offset: int)
    requires AllWellFormed(frame1) && Disjoint(frame1)
    ensures Open(SortBy(CorrelationPoints(frame1, frame2, offset), Pos), true, false, 0.0) == TotalLength(frame1)
  {
    var pts := SortBy(CorrelationPoints(frame1, frame2, offset), Pos);
    FirstFrameEndpoints(frame1, frame2, offset);
    assert |Filter(pts, FromFrame(true))| % 2 == 0 by {
      assert |Map(Filter(pts, FromFrame(true)), Pos)| == |Filter(pts, FromFrame(true))|;
    }
    OpenAlt(pts, true, false, 0.0);
    AltSortedEndsExact(frame1, offset as real);
  }

  /** A frame of disjoint notes, compared with itself moved by exactly the offset tried,
      scores 1: the best possible score of `CorrelationBounds` is reached at the true shift. */
  lemma CorrelationAtExactShift(frame: seq<Span>, offset: int)
    requires AllWellFormed(frame) && Disjoint(frame)
    requires TotalLength(frame) > 0.0
    ensures PotentialOverlap(frame, Shift(frame, offset as real)) != 0.0
    ensures Correlation(frame, Shift(frame, offset as real), offset) == 1.0
  {
    var frame2 := Shift(frame, offset as real);
    var total := TotalLength(frame);
    assert EqualDistance(frame, frame2, offset) == total by {
      ShiftedOverlap(frame, offset);
      FirstOpenExact(frame, frame2, offset);
    }
    assert PotentialOverlap(frame, frame2) == total by {
      ShiftLength(frame, offset as real);
    }
    assert total / total == 1.0;
  }

  // ---------------------------------------------------------------------------------------
  // Against its shifted copy, a frame scores below 1 at every other offset.

  /** Every note has positive length, so a non-empty frame has a positive total length. */
  predicate PositiveNotes(frame: seq<Span>)
  {
    forall i :: 0 <= i < |frame| ==> frame[i].first < frame[i].second
  }

  lemma {:induction false} PositiveTotal(frame: seq<Span>)
    requires PositiveNotes(frame)
    ensures AllWellFormed(frame)
    ensures frame != [] ==> TotalLength(frame) > 0.0
  {
    if frame != [] {
      PositiveTotal(frame[1..]);
      assert forall i :: 1 <= i < |frame| ==> frame[1..][i - 1] == frame[i];
    }
  }

  lemma {:induction false} ShiftWellFormed(frame: seq<Span>, offset: real)
    requires AllWellFormed(frame)
    ensures AllWellFormed(Shift(frame, offset))
  {
    if frame != [] {
      ShiftWellFormed(frame[1..], offset);
      assert forall i :: 1 <= i < |frame| ==> Shift(frame, offset)[i] == Shift(frame[1..], offset)[i - 1];
    }
  }

  /** A non-empty frame has a note that starts first. */
  lemma {:induction false} LeftmostNote(frame: seq<Span>) returns (i0: int)
    requires frame != []
    ensures 0 <= i0 < |frame| && forall i :: 0 <= i < |frame| ==> frame[i0].first <= frame[i].first
    decreases |frame|
  {
    if |frame| == 1 {
      i0 := 0;
    } else {
      var j := LeftmostNote(frame[1..]);
      assert forall i :: 1 <= i < |frame| ==> frame[i] == frame[1..][i - 1];
      i0 := if frame[0].first <= frame[j + 1].first then 0 else j + 1;
    }
  }

  /** In a disjoint frame every other note starts after the first note ends. */
  lemma LeftmostClear(frame: seq<Span>, i0: int)
    requires AllWellFormed(frame) && Disjoint(frame)
    requires 0 <= i0 < |frame| && forall i :: 0 <= i < |frame| ==> frame[i0].first <= frame[i].first
    ensures forall i :: 0 <= i < |frame| && i != i0 ==> frame[i0].second < frame[i].first
  {
    forall i | 0 <= i < |frame| && i != i0 ensures frame[i0].second < frame[i].first {
      assert WellFormed(frame[i]);
    }
  }

  /** No endpoint lies at or below `v` when every note starts above it. */
  lemma {:induction false} EndsAllAbove(frame: seq<Span>, offset: real, v: real)
    requires AllWellFormed(frame)
    requires forall i :: 0 <= i < |frame| ==> v < frame[i].first + offset
    ensures EndsAtOrBelow(frame, offset, v) == 0
  {
    if frame != [] {
      assert WellFormed(frame[0]);
      EndsAllAbove(frame[1..], offset, v);
    }
  }

  /** Exactly one endpoint lies at or below `v` when only note `i0` starts there, and it ends
      above `v`. */
  lemma {:induction false} EndsOneAtOrBelow(frame: seq<Span>, offset: real, v: real, i0: int)
    requires AllWellFormed(frame) && 0 <= i0 < |frame|
    requires frame[i0].first + offset <= v < frame[i0].second + offset
    requires forall i :: 0 <= i < |frame| && i != i0 ==> v < frame[i].first + offset
    ensures EndsAtOrBelow(frame, offset, v) == 1
    decreases |frame|
  {
    assert WellFormed(frame[0]);
    if i0 == 0 {
      EndsAllAbove(frame[1..], offset, v);
    } else {
      EndsOneAtOrBelow(frame[1..], offset, v, i0 - 1);
    }
  }

  /** The endpoints of either frame at or below `v`, counted among all the endpoints. */
  lemma PointCounts(frame: seq<Span>, o: int, s: real, v: real)
    ensures Count(CorrelationPoints(frame, Shift(frame, s), o), AtOrBelow(true, v)) == EndsAtOrBelow(frame, o as real, v)
    ensures Count(CorrelationPoints(frame, Shift(frame, s), o), AtOrBelow(false, v)) == EndsAtOrBelow(frame, s, v)
  {
    var p1, p2 := NotePoints(frame, o as real, true), NotePoints(Shift(frame, s), 0.0, false);
    FilterAppend(p1, p2, AtOrBelow(true, v));
    FilterAppend(p1, p2, AtOrBelow(false, v));
    NotePointsCount(frame, o as real, true, v);
    NotePointsCount(Shift(frame, s), 0.0, false, v);
    ShiftEndsAtOrBelow(frame, s, v);
    OtherFrameCount(frame, o as real, true, v);
    OtherFrameCount(Shift(frame, s), 0.0, false, v);
  }

  /** Sorted endpoints of which exactly one lies at or below `v`, from frame `tag`: that one
      comes first and all others lie above `v`. */
  lemma FirstAlone(pts: seq<Point>, tag: bool, v: real)
    requires SortedBy(pts, Pos)
    requires Count(pts, AtOrBelow(tag, v)) == 1 && Count(pts, AtOrBelow(!tag, v)) == 0
    ensures pts != [] && pts[0].fromFirst == tag && pts[0].pos <= v
    ensures forall i :: 1 <= i < |pts| ==> v < pts[i].pos
  {
    assert pts != [];
    SortedTail(pts, Pos);
    var p, rest := pts[0], pts[1..];
    assert pts == [p] + rest;
    FilterCons(p, rest, AtOrBelow(tag, v));
    FilterCons(p, rest, AtOrBelow(!tag, v));
    if v < p.pos {
      FilterNone(pts, AtOrBelow(tag, v));
      assert false;
    }
    CountZero(rest, AtOrBelow(tag, v));
    CountZero(rest, AtOrBelow(!tag, v));
    assert forall i :: 1 <= i < |pts| ==> pts[i] == rest[i - 1];
  }

  /** No element satisfies a predicate that none is counted for. */
  lemma {:induction false} CountZero<T>(s: seq<T>, p: T -> bool)
    requires Count(s, p) == 0
    ensures forall i :: 0 <= i < |s| ==> !p(s[i])
  {
    if s != [] {
      FilterCons(s[0], s[1..], p);
      assert s == [s[0]] + s[1..];
      CountZero(s[1..], p);
    }
  }

  /** When the sweep starts with an endpoint of frame `tag`, the overlap misses the stretch up
      to the next endpoint, over which frame `tag` alone is open. */
  lemma SweepMissesFirstGap(pts: seq<Point>, tag: bool)
    requires SortedBy(pts, Pos) && |pts| >= 2
    requires pts[0].fromFirst == tag
    ensures Sweep(pts, false, false, 0.0) + (pts[1].pos - pts[0].pos) <= Open(pts, tag, false, 0.0)
  {
    var p0, p1, rest := pts[0], pts[1], pts[2..];
    assert pts[1..][0] == p1 && pts[1..][1..] == rest;
    SortedTail(pts, Pos);
    SortedTail(pts[1..], Pos);
    var o1, o2 := if p1.fromFirst then !tag else tag, if p1.fromFirst then !tag else tag;
    assert Sweep(pts, false, false, 0.0) == Sweep(rest, o1, o2, p1.pos);
    assert Open(pts, tag, false, 0.0) == (p1.pos - p0.pos) + Open(rest, tag, if p1.fromFirst == tag then false else true, p1.pos);
    SweepBelowOpen(rest, o1, o2, p1.pos);
  }

  /** A frame of disjoint notes of positive length, compared with itself moved by `s`, scores
      below 1 at every offset other than `s`: whichever copy starts first is open alone over a
      stretch of positive length. */
  lemma CorrelationOffShift(frame: seq<Span>, s: int, o: int)
    requires PositiveNotes(frame) && Disjoint(frame) && frame != []
    requires o != s
    ensures PotentialOverlap(frame, Shift(frame, s as real)) != 0.0
    ensures Correlation(frame, Shift(frame, s as real), o) < 1.0
  {
    var frame2 := Shift(frame, s as real);
    PositiveTotal(frame);
    ShiftLength(frame, s as real);
    ShiftWellFormed(frame, s as real);
    var total := TotalLength(frame);
    var i0 := LeftmostNote(frame);
    LeftmostClear(frame, i0);
    var m := frame[i0].first;
    var tag := o < s;
    var lo, hi := if tag then o as real else s as real, if tag then s as real else o as real;
    var v := m + lo;
    EndsOneAtOrBelow(frame, lo, v, i0);
    EndsAllAbove(frame, hi, v);
    PointCounts(frame, o, s as real, v);
    var cp := CorrelationPoints(frame, frame2, o);
    var pts := SortBy(cp, Pos);
    SortBySpec(cp, Pos);
    CountSortBy(cp, Pos, AtOrBelow(true, v));
    CountSortBy(cp, Pos, AtOrBelow(false, v));
    FirstAlone(pts, tag, v);
    assert |pts| == |cp| == 4 * |frame| by {
      assert |multiset(pts)| == |multiset(cp)|;
    }
    SweepMissesFirstGap(pts, tag);
    OpenTotal(frame, frame2, o, tag);
    var eq := EqualDistance(frame, frame2, o);
    assert eq < total;
    assert PotentialOverlap(frame, frame2) == total;
    StrictRatio(eq, total);
  }

  lemma StrictRatio(x: real, y: real)
    requires x < y && 0.0 < y
    ensures x / y < 1.0
  {
    var r := x / y;
    assert r * y == x;
  }
}
